/** A parsed Intcode program (advent_common/src/intcode/program.rs). */
module IntcodeProgram {
  import opened Common
  import opened Text
  import opened IntcodeErrors

  datatype Program = Program(inner: seq<int>)

  /** The parsed words as a program, or the first bad token. */
  function AsProgram(parsed: Result<seq<int>, string>): Result<Program, ErrorKind> {
    match parsed
    case Ok(words) => Ok(Program(words))
    case Err(token) => Err(StringParseError(token))
  }

  /** `Program::from_source`: one trimmed `i32` per comma-separated token,
      in source order; the first token that does not parse (an empty one
      included) is reported as written. */
  method FromSource(source: string) returns (r: Result<Program, ErrorKind>)
    ensures r == AsProgram(ParseList(source, I32Token))
  {
    r := CollectWords(Split(source, ','), I32Token);
  }

  /** The loop of `from_source` over the tokens. */
  method CollectWords(tokens: seq<string>, parse: string -> Option<int>) returns (r: Result<Program, ErrorKind>)
    ensures r == AsProgram(ParseTokens(tokens, parse))
  {
    var vec := [];
    var i := 0;
    while i < |tokens|
      invariant 0 <= i <= |tokens|
      invariant ParseTokens(tokens[..i], parse) == Ok(vec)
    {
      var v := parse(tokens[i]);
      ParseTokensExtend(tokens, parse, i, vec);
      if v.None? {
        return Err(StringParseError(tokens[i]));
      }
      vec := vec + [v.value];
      i := i + 1;
    }
    assert tokens[..i] == tokens;
    r := Ok(Program(vec));
  }

  /** `Program::from_reader`: read the whole text, then `from_source`. */
  method FromReader(text: string) returns (r: Result<Program, ErrorKind>)
    ensures r == AsProgram(ParseList(text, I32Token))
  {
    r := FromSource(text);
  }

  /** Every program `from_source` accepts has at least one word, and every
      word is an `i32`. */
  lemma ParsedProgramShape(source: string)
    requires ParseList(source, I32Token).Ok?
    ensures |ParseList(source, I32Token).value| >= 1
    ensures AllI32(ParseList(source, I32Token).value)
  {
    var tokens := Split(source, ',');
    var words := ParseList(source, I32Token).value;
    forall i | 0 <= i < |words| ensures IsI32(words[i]) {
      assert I32Token(tokens[i]) == Some(words[i]);
    }
  }

  /** `Program::load`: a fresh copy of the words. */
  function Load(p: Program): (r: seq<int>)
    ensures |r| == |p.inner| && forall i :: 0 <= i < |r| ==> r[i] == p.inner[i]
  {
    p.inner
  }

  /** `Program::load_to`: pad the caller's vector with zeros up to the
      program's length (never shrinking it), then overwrite its prefix with
      the program; cells past the program keep their values. */
  method LoadTo(p: Program, output: seq<int>) returns (result: seq<int>)
    ensures |result| == Max(|output|, |p.inner|)
    ensures forall i :: 0 <= i < |p.inner| ==> result[i] == p.inner[i]
    ensures forall i :: |p.inner| <= i < |output| ==> result[i] == output[i]
  {
    result := output;
    while |result| < |p.inner|
      invariant |output| <= |result| <= Max(|output|, |p.inner|)
      invariant result[..|output|] == output
      invariant forall i :: |output| <= i < |result| ==> result[i] == 0
      decreases |p.inner| - |result|
    {
      result := result + [0];
    }
    var i := 0;
    while i < |p.inner|
      invariant 0 <= i <= |p.inner|
      invariant |result| == Max(|output|, |p.inner|)
      invariant forall k :: 0 <= k < i ==> result[k] == p.inner[k]
      invariant forall k :: i <= k < |output| ==> result[k] == output[k]
    {
      result := result[i := p.inner[i]];
      i := i + 1;
    }
  }

  /** After `load_to`, the cells past the old length that the program does
      not cover do not exist, and the padding is overwritten: a vector no
      longer than the program becomes exactly the program. */
  lemma LoadToShortVector(p: Program, output: seq<int>, result: seq<int>)
    requires |output| <= |p.inner|
    requires |result| == Max(|output|, |p.inner|)
    requires forall i :: 0 <= i < |p.inner| ==> result[i] == p.inner[i]
    ensures result == p.inner
  {
  }
}
