/** The pieces of Rust's string handling the puzzle sources lean on:
    `str::trim`, `str::split(',')`, `str::parse` for integer types, the
    decimal `Display` of an integer, and joining with a separator. */
module Text {
  import opened Common

  /** `char::is_whitespace`: the Unicode White_Space property. */
  predicate IsWhitespace(c: char) {
    ('\t' <= c <= '\r') || c == ' ' || c == '\U{85}' || c == '\U{A0}' || c == '\U{1680}'
    || ('\U{2000}' <= c <= '\U{200A}') || c == '\U{2028}' || c == '\U{2029}'
    || c == '\U{202F}' || c == '\U{205F}' || c == '\U{3000}'
  }

  function TrimStart(s: string): (r: string)
    ensures |r| <= |s| && r == s[|s| - |r|..]
    ensures |r| > 0 ==> !IsWhitespace(r[0])
    ensures forall i :: 0 <= i < |s| - |r| ==> IsWhitespace(s[i])
  {
    if |s| > 0 && IsWhitespace(s[0]) then TrimStart(s[1..]) else s
  }

  function TrimEnd(s: string): (r: string)
    ensures |r| <= |s| && r == s[..|r|]
    ensures |r| > 0 ==> !IsWhitespace(r[|r| - 1])
    ensures forall i :: |r| <= i < |s| ==> IsWhitespace(s[i])
  {
    if |s| > 0 && IsWhitespace(s[|s| - 1]) then TrimEnd(s[..|s| - 1]) else s
  }

  /** `str::trim`: drops leading and trailing whitespace. */
  function Trim(s: string): string {
    TrimEnd(TrimStart(s))
  }

  lemma {:induction false} TrimKeepsInnerText(s: string)
    requires |s| > 0 ==> !IsWhitespace(s[0]) && !IsWhitespace(s[|s| - 1])
    ensures Trim(s) == s
  {
  }

  /** `str::split(sep)`: the pieces between occurrences of `sep`; there is
      always at least one piece, empty pieces included. */
  function Split(s: string, sep: char): (r: seq<string>)
    ensures 1 <= |r| <= |s| + 1
    ensures forall i, j :: 0 <= i < |r| && 0 <= j < |r[i]| ==> r[i][j] != sep
  {
    if |s| == 0 then [""]
    else if s[0] == sep then [""] + Split(s[1..], sep)
    else
      var rest := Split(s[1..], sep);
      [[s[0]] + rest[0]] + rest[1..]
  }

  /** `join(sep)` over a slice of strings. */
  function Join(parts: seq<string>, sep: char): string {
    if |parts| == 0 then ""
    else if |parts| == 1 then parts[0]
    else parts[0] + [sep] + Join(parts[1..], sep)
  }

  /** Appending a part appends the separator and the part. */
  lemma {:induction false} JoinSnoc(parts: seq<string>, p: string, sep: char)
    requires |parts| >= 1
    ensures Join(parts + [p], sep) == Join(parts, sep) + [sep] + p
  {
    if |parts| > 1 {
      assert (parts + [p])[1..] == parts[1..] + [p];
      JoinSnoc(parts[1..], p, sep);
    }
  }

  predicate FreeOf(parts: seq<string>, sep: char) {
    forall i, j :: 0 <= i < |parts| && 0 <= j < |parts[i]| ==> parts[i][j] != sep
  }

  lemma {:induction false} JoinSplit(s: string, sep: char)
    ensures Join(Split(s, sep), sep) == s
  {
    if |s| > 0 {
      var t := s[1..];
      assert s == [s[0]] + t;
      JoinSplit(t, sep);
      var rest := Split(t, sep);
      if s[0] == sep {
        SplitLeadingSep(t, sep);
        assert ([""] + rest)[1..] == rest;
      } else {
        SplitLeadingChar(s[0], t, sep);
        var parts := [[s[0]] + rest[0]] + rest[1..];
        assert parts[0][1..] == rest[0] && parts[1..] == rest[1..];
        JoinFirstChar(parts, sep);
        assert [rest[0]] + rest[1..] == rest;
      }
    }
  }

  /** Splitting text that starts with the separator starts a new, empty piece. */
  lemma SplitLeadingSep(t: string, sep: char)
    ensures Split([sep] + t, sep) == [""] + Split(t, sep)
  {
    assert ([sep] + t)[1..] == t;
  }

  /** Splitting text that starts with another character extends the first piece. */
  lemma SplitLeadingChar(c: char, t: string, sep: char)
    requires c != sep
    ensures Split([c] + t, sep) == [[c] + Split(t, sep)[0]] + Split(t, sep)[1..]
  {
    assert ([c] + t)[1..] == t;
  }

  /** Taking the first character off the first piece of a join. */
  lemma JoinFirstChar(parts: seq<string>, sep: char)
    requires |parts| >= 1 && |parts[0]| > 0
    ensures Join(parts, sep) == [parts[0][0]] + Join([parts[0][1..]] + parts[1..], sep)
  {
    var first := parts[0];
    var shorter := [first[1..]] + parts[1..];
    assert first == [first[0]] + first[1..];
    if |parts| > 1 {
      assert shorter[1..] == parts[1..];
    }
  }

  /** Dropping the first character of the first piece keeps the pieces free of the separator. */
  lemma FreeOfTail(parts: seq<string>, sep: char)
    requires |parts| >= 1 && |parts[0]| > 0 && FreeOf(parts, sep)
    ensures FreeOf([parts[0][1..]] + parts[1..], sep)
  {
    var shorter := [parts[0][1..]] + parts[1..];
    forall i, j | 0 <= i < |shorter| && 0 <= j < |shorter[i]|
      ensures shorter[i][j] != sep
    {
      if i == 0 { assert shorter[i][j] == parts[0][j + 1]; } else { assert shorter[i] == parts[i]; }
    }
  }

  lemma {:induction false} SplitJoin(parts: seq<string>, sep: char)
    requires |parts| >= 1
    requires FreeOf(parts, sep)
    ensures Split(Join(parts, sep), sep) == parts
    decreases |parts|, |parts[0]|
  {
    var first := parts[0];
    if |first| == 0 {
      if |parts| > 1 {
        SplitJoin(parts[1..], sep);
        assert Join(parts, sep) == [sep] + Join(parts[1..], sep);
        SplitLeadingSep(Join(parts[1..], sep), sep);
        assert [""] + parts[1..] == parts;
      }
    } else {
      var shorter := [first[1..]] + parts[1..];
      FreeOfTail(parts, sep);
      SplitJoin(shorter, sep);
      JoinFirstChar(parts, sep);
      assert first[0] != sep;
      SplitLeadingChar(first[0], Join(shorter, sep), sep);
      assert [[first[0]] + shorter[0]] + shorter[1..] == parts by {
        assert [first[0]] + first[1..] == first;
      }
    }
  }

  /** `BufRead::lines` over text: split at line feeds, a final empty line
      dropped, and a carriage return before each line feed removed. */
  function Lines(text: string): seq<string> {
    var pieces := Split(text, '\n');
    var kept := if pieces[|pieces| - 1] == "" then pieces[..|pieces| - 1] else pieces;
    seq(|kept|, i requires 0 <= i < |kept| => StripCr(kept[i]))
  }

  function StripCr(line: string): string {
    if |line| > 0 && line[|line| - 1] == '\r' then line[..|line| - 1] else line
  }

  predicate IsDigit(c: char) { '0' <= c <= '9' }

  predicate AllDigits(s: string) { forall i :: 0 <= i < |s| ==> IsDigit(s[i]) }

  function DigitValue(c: char): nat
    requires IsDigit(c)
  {
    (c as int) - ('0' as int)
  }

  function DigitChar(d: nat): (c: char)
    requires d < 10
    ensures IsDigit(c) && DigitValue(c) == d
  {
    (('0' as int) + d) as char
  }

  /** The value of a string of decimal digits, most significant first. */
  function DigitsValue(s: string): nat
    requires AllDigits(s)
  {
    if |s| == 0 then 0 else DigitsValue(s[..|s| - 1]) * 10 + DigitValue(s[|s| - 1])
  }

  /** `str::parse` for an integer type whose range is [lo, hi]: an optional
      `+` (or `-` when the type is signed), then one or more decimal digits,
      and the value must fit the type. No whitespace is accepted. */
  function ParseInt(s: string, signed: bool, lo: int, hi: int): (r: Option<int>)
    ensures r.Some? ==> lo <= r.value <= hi
    ensures r.Some? ==> |s| > 0 && (IsDigit(s[0]) || s[0] == '+' || (signed && s[0] == '-'))
  {
    if |s| == 0 then None
    else
      var negative := signed && s[0] == '-';
      var digits := if s[0] == '+' || negative then s[1..] else s;
      if |digits| == 0 || !AllDigits(digits) then None
      else
        var v: int := if negative then 0 - DigitsValue(digits) else DigitsValue(digits);
        if lo <= v <= hi then Some(v) else None
  }

  /** Decimal rendering of a natural number, no leading zeros. */
  function ShowNat(n: nat): (s: string)
    ensures |s| >= 1 && AllDigits(s) && DigitsValue(s) == n
    ensures n > 0 ==> DigitValue(s[0]) != 0
  {
    if n < 10 then [DigitChar(n)]
    else
      var prefix := ShowNat(n / 10);
      var s := prefix + [DigitChar(n % 10)];
      assert s[..|s| - 1] == prefix;
      s
  }

  /** The `Display` form of an integer: `-` then the digits of the
      magnitude when negative. */
  function Show(n: int): (s: string)
    ensures |s| >= 1
    ensures forall i :: 0 <= i < |s| ==> IsDigit(s[i]) || (i == 0 && s[i] == '-')
  {
    if n < 0 then "-" + ShowNat(-n) else ShowNat(n)
  }

  lemma {:induction false} ShowParses(n: int, signed: bool, lo: int, hi: int)
    requires lo <= n <= hi
    requires signed || n >= 0
    ensures ParseInt(Show(n), signed, lo, hi) == Some(n)
    ensures Trim(Show(n)) == Show(n)
  {
    var s := Show(n);
    TrimKeepsInnerText(s);
    if n < 0 {
      assert s[1..] == ShowNat(-n);
    }
  }

  /** One token as the loaders read it into an `i32`: trimmed, then
      parsed. */
  function I32Token(token: string): (r: Option<int>)
    ensures r.Some? ==> IsI32(r.value)
  {
    ParseInt(Trim(token), true, I32_MIN, I32_MAX)
  }

  /** Parsing a list of raw tokens the way the loaders do: each token is
      parsed in order, and the first bad token is reported as written. */
  function ParseTokens(tokens: seq<string>, parse: string -> Option<int>): (r: Result<seq<int>, string>)
    ensures r.Ok? <==> forall i {:trigger parse(tokens[i])} :: 0 <= i < |tokens| ==> parse(tokens[i]).Some?
    ensures r.Ok? ==> |r.value| == |tokens|
    ensures r.Ok? ==> forall i {:trigger parse(tokens[i])} :: 0 <= i < |tokens| ==> parse(tokens[i]) == Some(r.value[i])
  {
    if |tokens| == 0 then Ok([])
    else
      var head := parse(tokens[0]);
      if head.None? then Err(tokens[0])
      else
        var rest := ParseTokens(tokens[1..], parse);
        assert forall i :: 1 <= i < |tokens| ==> tokens[i] == tokens[1..][i - 1];
        if rest.Err? then rest else Ok([head.value] + rest.value)
  }

  /** When every token parses, ParseTokens yields exactly the values. */
  lemma ParseTokensAll(tokens: seq<string>, parse: string -> Option<int>, values: seq<int>)
    requires |values| == |tokens|
    requires forall k :: 0 <= k < |tokens| ==> parse(tokens[k]) == Some(values[k])
    ensures ParseTokens(tokens, parse) == Ok(values)
  {
    var r := ParseTokens(tokens, parse);
    assert r.Ok?;
    assert r.value == values;
  }

  /** The error of ParseTokens is the first token that does not parse. */
  lemma {:induction false} ParseTokensFirstBad(tokens: seq<string>, parse: string -> Option<int>, k: nat)
    requires k < |tokens| && parse(tokens[k]).None?
    requires forall i :: 0 <= i < k ==> parse(tokens[i]).Some?
    ensures ParseTokens(tokens, parse) == Err(tokens[k])
  {
    if k > 0 {
      ParseTokensFirstBad(tokens[1..], parse, k - 1);
    }
  }

  /** Extending a prefix that parses by one more token: a bad token is the
      error of the whole list, a good one extends the values. */
  lemma ParseTokensExtend(tokens: seq<string>, parse: string -> Option<int>, i: nat, values: seq<int>)
    requires i < |tokens| && ParseTokens(tokens[..i], parse) == Ok(values)
    ensures parse(tokens[i]).None? ==> ParseTokens(tokens, parse) == Err(tokens[i])
    ensures parse(tokens[i]).Some? ==> ParseTokens(tokens[..i + 1], parse) == Ok(values + [parse(tokens[i]).value])
  {
    var before := tokens[..i];
    forall k | 0 <= k < i
      ensures parse(tokens[k]) == Some(values[k])
    {
      assert before[k] == tokens[k];
      assert parse(before[k]) == Some(values[k]);
    }
    if parse(tokens[i]).None? {
      ParseTokensFirstBad(tokens, parse, i);
    } else {
      var upto := tokens[..i + 1];
      var extended := values + [parse(tokens[i]).value];
      forall k | 0 <= k < |upto|
        ensures parse(upto[k]) == Some(extended[k])
      {
        assert upto[k] == tokens[k];
      }
      ParseTokensAll(upto, parse, extended);
    }
  }

  /** A comma-separated list, each token read by `parse`. */
  function ParseList(text: string, parse: string -> Option<int>): Result<seq<int>, string> {
    ParseTokens(Split(text, ','), parse)
  }

  function ShowAll(xs: seq<int>): (r: seq<string>)
    ensures |r| == |xs| && forall i :: 0 <= i < |xs| ==> r[i] == Show(xs[i])
  {
    seq(|xs|, i requires 0 <= i < |xs| => Show(xs[i]))
  }

  /** Integers in decimal, joined by single commas. */
  function ShowList(xs: seq<int>): string {
    Join(ShowAll(xs), ',')
  }

  /** The printing of the first i + 1 integers, from that of the first i. */
  lemma ShowListStep(xs: seq<int>, i: nat)
    requires i < |xs|
    ensures ShowList(xs[..i + 1]) == if i == 0 then Show(xs[0]) else ShowList(xs[..i]) + "," + Show(xs[i])
  {
    assert xs[..i + 1] == xs[..i] + [xs[i]];
    ShowListSnoc(xs[..i], xs[i]);
  }

  /** Printing one more integer appends a comma (unless the list was
      empty) and the integer. */
  lemma ShowListSnoc(xs: seq<int>, x: int)
    ensures ShowList(xs + [x]) == if |xs| == 0 then Show(x) else ShowList(xs) + "," + Show(x)
  {
    assert ShowAll(xs + [x]) == ShowAll(xs) + [Show(x)];
    if |xs| > 0 {
      JoinSnoc(ShowAll(xs), Show(x), ',');
    }
  }

  /** Splitting a printed non-empty list at commas gives the printed items. */
  lemma ShowListSplits(xs: seq<int>)
    requires |xs| >= 1
    ensures Split(ShowList(xs), ',') == ShowAll(xs)
  {
    var shown := ShowAll(xs);
    assert FreeOf(shown, ',') by {
      forall i, j | 0 <= i < |shown| && 0 <= j < |shown[i]| ensures shown[i][j] != ',' {
        assert shown[i] == Show(xs[i]);
      }
    }
    SplitJoin(shown, ',');
  }

  /** A printed `i32` read back as a token gives the integer. */
  lemma ShowI32Parses(n: int)
    requires IsI32(n)
    ensures I32Token(Show(n)) == Some(n)
  {
    ShowParses(n, true, I32_MIN, I32_MAX);
  }

  /** A list of printed items whose every item parses back to the integer
      it shows parses to the list. */
  lemma ShowAllParses(xs: seq<int>, parse: string -> Option<int>)
    requires forall i :: 0 <= i < |xs| ==> parse(Show(xs[i])) == Some(xs[i])
    ensures ParseTokens(ShowAll(xs), parse) == Ok(xs)
  {
    ParseTokensAll(ShowAll(xs), parse, xs);
  }

  /** Printing a non-empty list and parsing it back with a reader that
      reads every printed item back gives the list again. */
  lemma ShowListParses(xs: seq<int>, parse: string -> Option<int>)
    requires |xs| >= 1
    requires forall i :: 0 <= i < |xs| ==> parse(Show(xs[i])) == Some(xs[i])
    ensures ParseList(ShowList(xs), parse) == Ok(xs)
  {
    calc {
      ParseList(ShowList(xs), parse);
      ParseTokens(Split(ShowList(xs), ','), parse);
      { ShowListSplits(xs); }
      ParseTokens(ShowAll(xs), parse);
      { ShowAllParses(xs, parse); }
      Ok(xs);
    }
  }

  /** Printing a non-empty list of `i32`s and reading it back as `i32`
      tokens gives the list again. */
  lemma ShowI32ListParses(xs: seq<int>)
    requires |xs| >= 1 && AllI32(xs)
    ensures ParseList(ShowList(xs), I32Token) == Ok(xs)
  {
    forall i | 0 <= i < |xs| ensures I32Token(Show(xs[i])) == Some(xs[i]) {
      ShowI32Parses(xs[i]);
    }
    ShowListParses(xs, I32Token);
  }
}
