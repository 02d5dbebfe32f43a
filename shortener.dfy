/** The random code generator: each character of a code is drawn from a fixed
    62-character alphabet. The secure random source is replaced by a sequence
    of draws, each either an index below 62 or a failure. */
module Shortener {
  import opened Errors

  const Digits: string := "0123456789"
  const Lowercase: string := "abcdefghijklmnopqrstuvwxyz"
  const Uppercase: string := "ABCDEFGHIJKLMNOPQRSTUVWXYZ"

  /** The generator's alphabet: digits, then lower-case, then upper-case letters. */
  const Alphabet: string := Digits + Lowercase + Uppercase

  /** What rand.Int(rand.Reader, 62) can return: a number in [0, 62). */
  type AlphabetIndex = x: nat | x < 62

  /** The outcome of one draw from the random source. */
  datatype Draw = Drawn(x: AlphabetIndex) | DrawFailed

  /** An independent description of the 62 base-62 characters. */
  predicate IsBase62(c: char) {
    || '0' <= c <= '9'
    || 'a' <= c <= 'z'
    || 'A' <= c <= 'Z'
  }

  /** The character at position i of the alphabet, by arithmetic on code points. */
  function Glyph(i: AlphabetIndex): char {
    if i < 10 then ('0' as int + i) as char
    else if i < 36 then ('a' as int + (i - 10)) as char
    else ('A' as int + (i - 36)) as char
  }

  lemma DigitsAt(i: nat)
    requires i < 10
    ensures Digits[i] as int == '0' as int + i
  {
  }

  lemma LowercaseAt(i: nat)
    requires i < 26
    ensures Lowercase[i] as int == 'a' as int + i
  {
  }

  lemma UppercaseAt(i: nat)
    requires i < 26
    ensures Uppercase[i] as int == 'A' as int + i
  {
  }

  lemma AlphabetAt(i: AlphabetIndex)
    ensures |Alphabet| == 62 && Alphabet[i] == Glyph(i)
  {
    if i < 10 {
      DigitsAt(i);
    } else if i < 36 {
      LowercaseAt(i - 10);
    } else {
      UppercaseAt(i - 36);
    }
  }

  /** The alphabet has 62 pairwise distinct characters, and they are exactly
      the digits and the lower- and upper-case ASCII letters. */
  lemma AlphabetShape()
    ensures |Alphabet| == 62
    ensures forall i, j :: 0 <= i < j < |Alphabet| ==> Alphabet[i] != Alphabet[j]
    ensures forall c :: c in Alphabet <==> IsBase62(c)
  {
    forall i, j | 0 <= i < j < |Alphabet|
      ensures Alphabet[i] != Alphabet[j]
    {
      AlphabetAt(i);
      AlphabetAt(j);
    }
    forall c
      ensures c in Alphabet <==> IsBase62(c)
    {
      if c in Alphabet {
        var i :| 0 <= i < |Alphabet| && Alphabet[i] == c;
        AlphabetAt(i);
      }
      if IsBase62(c) {
        var i: AlphabetIndex :=
          if c <= '9' then c as int - '0' as int
          else if c <= 'Z' then c as int - 'A' as int + 36
          else c as int - 'a' as int + 10;
        AlphabetAt(i);
      }
    }
  }

  /** What GenerateCode produces from a sequence of draws: an error as soon as
      a draw fails, otherwise the alphabet characters the draws select. */
  function Render(draws: seq<Draw>): (r: Result<string>)
    ensures r.Ok? <==> forall i | 0 <= i < |draws| :: draws[i].Drawn?
    ensures r.Ok? ==> |r.value| == |draws|
    ensures r.Ok? ==> forall i | 0 <= i < |draws| :: r.value[i] == Alphabet[draws[i].x]
    ensures r.Err? ==> r.error == EntropyFailure
  {
    if draws == [] then Ok("")
    else
      match Render(draws[..|draws| - 1])
      case Err(e) => Err(e)
      case Ok(prefix) =>
        match draws[|draws| - 1]
        case DrawFailed => Err(EntropyFailure)
        case Drawn(x) => Ok(prefix + [Alphabet[x]])
  }

  /** Every character of a rendered code is in the alphabet, that is, base 62. */
  lemma RenderedCodeIsBase62(draws: seq<Draw>)
    requires Render(draws).Ok?
    ensures forall c | c in Render(draws).value :: c in Alphabet && IsBase62(c)
  {
    AlphabetShape();
    var code := Render(draws).value;
    forall c | c in code
      ensures c in Alphabet
    {
      var i :| 0 <= i < |code| && code[i] == c;
      assert c == Alphabet[draws[i].x];
    }
  }

  /** GenerateCode(n): fills an n-byte buffer one draw at a time; a failed
      draw returns the error and no partial code. */
  method GenerateCode(n: nat, draws: seq<Draw>) returns (r: Result<string>)
    requires |draws| == n
    ensures r == Render(draws)
    ensures r.Ok? ==> |r.value| == n && forall c | c in r.value :: c in Alphabet
  {
    var out := new char[n];
    for i := 0 to n
      invariant forall j | 0 <= j < i :: draws[j].Drawn?
      invariant forall j | 0 <= j < i :: out[j] == Alphabet[draws[j].x]
    {
      match draws[i]
      case DrawFailed =>
        return Err(EntropyFailure);
      case Drawn(x) =>
        out[i] := Alphabet[x];
    }
    r := Ok(out[..]);
    assert out[..] == Render(draws).value;
  }
}
