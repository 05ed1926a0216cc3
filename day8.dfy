/** Day 8 (day_8/src/main.rs): a layered image. The digits of the image are cut into layers of
    width * height pixels; part one checks a layer's digit counts, part two
    stacks the layers ('2' is transparent) and draws the result. */

module Day8 {
  import opened Common
  import opened Text

  /** The image text and its dimensions. */
  datatype Image = Image(image: string, width: nat, height: nat)

  // ---------------------------------------------------------------------
  // Layers

  /** `chunks(n)`: consecutive pieces of `n` characters, the last one
      possibly shorter. */
  function Chunks(s: string, n: nat): (r: seq<string>)
    requires n > 0
    ensures forall i :: 0 <= i < |r| ==> 0 < |r[i]| <= n
    ensures forall i :: 0 <= i < |r| - 1 ==> |r[i]| == n
    decreases |s|
  {
    if |s| == 0 then []
    else if |s| <= n then [s]
    else [s[..n]] + Chunks(s[n..], n)
  }

  function Concat(parts: seq<string>): string {
    if |parts| == 0 then "" else parts[0] + Concat(parts[1..])
  }

  /** The chunks put back together are the text. */
  lemma {:induction false} ChunksConcat(s: string, n: nat)
    requires n > 0
    ensures Concat(Chunks(s, n)) == s
    decreases |s|
  {
    if |s| > n {
      ChunksConcat(s[n..], n);
      assert [s[..n]] + Chunks(s[n..], n) == Chunks(s, n);
      assert (Chunks(s, n))[1..] == Chunks(s[n..], n);
    }
  }

  /** The layers: the trimmed image cut into pieces of one layer each. */
  function Layers(img: Image): seq<string>
    requires img.width * img.height > 0
  {
    Chunks(Trim(img.image), img.width * img.height)
  }

  // ---------------------------------------------------------------------
  // Part one

  /** How often `c` occurs in `s`. */
  function Occurrences(s: string, c: char): nat {
    multiset(s)[c]
  }

  predicate IsDigit012(c: char) {
    c == '0' || c == '1' || c == '2'
  }

  /** The first character of `s` that is not '0', '1' or '2'. */
  function FirstStray(s: string): (r: Option<char>)
    ensures r.None? <==> forall i :: 0 <= i < |s| ==> IsDigit012(s[i])
    ensures r.Some? ==> r.value in s && !IsDigit012(r.value)
  {
    if |s| == 0 then None
    else if !IsDigit012(s[0]) then Some(s[0])
    else FirstStray(s[1..])
  }

  type Tally = (nat, nat, nat)

  /** The fold over a layer counting '0', '1' and '2' in turn, from
      `acc`; any other character stops it. */
  function Tallied(layer: string, acc: Tally): Result<Tally, char> {
    if |layer| == 0 then Ok(acc)
    else
      var c := layer[0];
      if c == '0' then Tallied(layer[1..], (acc.0 + 1, acc.1, acc.2))
      else if c == '1' then Tallied(layer[1..], (acc.0, acc.1 + 1, acc.2))
      else if c == '2' then Tallied(layer[1..], (acc.0, acc.1, acc.2 + 1))
      else Err(c)
  }

  /** A layer of digits tallies to its counts of '0', '1' and '2'; a
      layer with any other character stops at the first one. */
  lemma {:induction false} TalliedCounts(layer: string, acc: Tally)
    ensures FirstStray(layer).None? ==> (Tallied(layer, acc) ==
      Ok((acc.0 + Occurrences(layer, '0'), acc.1 + Occurrences(layer, '1'), acc.2 + Occurrences(layer, '2'))))
    ensures FirstStray(layer).Some? ==> Tallied(layer, acc) == Err(FirstStray(layer).value)
  {
    if |layer| > 0 {
      TalliedCounts(layer[1..], if layer[0] == '0' then (acc.0 + 1, acc.1, acc.2)
        else if layer[0] == '1' then (acc.0, acc.1 + 1, acc.2) else (acc.0, acc.1, acc.2 + 1));
      assert layer == [layer[0]] + layer[1..];
      assert multiset(layer) == multiset([layer[0]]) + multiset(layer[1..]);
    }
  }

  /** Lexicographic order on tallies, as on Rust tuples. */
  predicate TallyLe(a: Tally, b: Tally) {
    a.0 < b.0 || (a.0 == b.0 && (a.1 < b.1 || (a.1 == b.1 && a.2 <= b.2)))
  }

  /** The tallies of all layers, or the first stray character. */
  function TallyAll(layers: seq<string>): (r: Result<seq<Tally>, char>)
    ensures r.Ok? ==> |r.value| == |layers|
    ensures r.Ok? ==> forall i :: 0 <= i < |layers| ==> Tallied(layers[i], (0, 0, 0)) == Ok(r.value[i])
  {
    if |layers| == 0 then Ok([])
    else
      var t :- Tallied(layers[0], (0, 0, 0));
      var rest :- TallyAll(layers[1..]);
      Ok([t] + rest)
  }

  /** The least tally. */
  function Least(ts: seq<Tally>): (r: Tally)
    requires |ts| > 0
    ensures r in ts
    ensures forall i :: 0 <= i < |ts| ==> TallyLe(r, ts[i])
  {
    if |ts| == 1 then ts[0]
    else
      var rest := Least(ts[1..]);
      if TallyLe(ts[0], rest) then ts[0] else rest
  }

  datatype PartOneError = UnexpectedInput(c: char) | NoAnswer

  /** The layer with the fewest '0's (then '1's, then '2's): its '1'
      count times its '2' count. */
  function PartOne(img: Image): Result<nat, PartOneError>
    requires img.width * img.height > 0
  {
    match TallyAll(Layers(img))
    case Err(c) => Err(UnexpectedInput(c))
    case Ok(ts) =>
      if |ts| == 0 then Err(NoAnswer)
      else Ok(Answer(Least(ts)))
  }

  /** The '1' count times the '2' count of a tally. */
  function Answer(t: Tally): nat {
    t.1 * t.2
  }

  /** The counts of '0', '1' and '2' in a layer. */
  function Counts(layer: string): Tally {
    (Occurrences(layer, '0'), Occurrences(layer, '1'), Occurrences(layer, '2'))
  }

  /** There is no answer exactly when the trimmed image is empty, and a
      reported character is never a '0', '1' or '2'. */
  lemma PartOneFails(img: Image)
    requires img.width * img.height > 0
    ensures PartOne(img) == Err(NoAnswer) <==> |Trim(img.image)| == 0
    ensures PartOne(img).Err? && PartOne(img).error.UnexpectedInput? ==> !IsDigit012(PartOne(img).error.c)
  {
    ChunksConcat(Trim(img.image), img.width * img.height);
    TallyAllStray(Layers(img));
  }

  /** Part one answers from a layer whose counts are the least: it has the
      fewest '0's, then the fewest '1's, then the fewest '2's. */
  lemma PartOneFewestZeros(img: Image)
    requires img.width * img.height > 0
    ensures PartOne(img).Ok? ==> exists k :: (0 <= k < |Layers(img)|
      && PartOne(img).value == Answer(Counts(Layers(img)[k]))
      && forall j :: 0 <= j < |Layers(img)| ==> TallyLe(Counts(Layers(img)[k]), Counts(Layers(img)[j])))
  {
    var layers := Layers(img);
    if PartOne(img).Ok? {
      var ts := TallyAll(layers).value;
      forall j | 0 <= j < |layers|
        ensures ts[j] == Counts(layers[j])
      {
        TalliedCounts(layers[j], (0, 0, 0));
        assert Tallied(layers[j], (0, 0, 0)) == Ok(ts[j]);
      }
      var k :| 0 <= k < |ts| && ts[k] == Least(ts);
      assert PartOne(img).value == Answer(ts[k]);
      forall j | 0 <= j < |layers|
        ensures TallyLe(Counts(layers[k]), Counts(layers[j]))
      {
        assert TallyLe(ts[k], ts[j]);
      }
    }
  }

  lemma {:induction false} TallyAllStray(layers: seq<string>)
    ensures TallyAll(layers).Err? ==> !IsDigit012(TallyAll(layers).error)
    ensures TallyAll(layers).Ok? ==> forall i :: 0 <= i < |layers| ==> FirstStray(layers[i]).None?
  {
    if |layers| > 0 {
      TalliedCounts(layers[0], (0, 0, 0));
      TallyAllStray(layers[1..]);
      if TallyAll(layers).Ok? {
        forall i | 0 <= i < |layers|
          ensures FirstStray(layers[i]).None?
        {
          TalliedCounts(layers[i], (0, 0, 0));
        }
      }
    }
  }

  // ---------------------------------------------------------------------
  // Part two

  /** Pixel `i` seen through the layers: the first layer's pixel that is
      not '2', or '2' when every layer is transparent there. */
  function Visible(layers: seq<string>, i: nat): char {
    if |layers| == 0 then '2'
    else if i < |layers[0]| && layers[0][i] != '2' then layers[0][i]
    else Visible(layers[1..], i)
  }

  /** Layer `k` shows something other than '2' at pixel `i`. */
  predicate Opaque(layers: seq<string>, k: nat, i: nat)
    requires k < |layers|
  {
    i < |layers[k]| && layers[k][i] != '2'
  }

  /** The pixel shown is the first opaque layer's pixel, and '2' exactly
      when no layer is opaque there. */
  lemma {:induction false} VisibleIsFirstOpaque(layers: seq<string>, i: nat)
    ensures Visible(layers, i) == '2' <==> forall k :: 0 <= k < |layers| ==> !Opaque(layers, k, i)
    ensures Visible(layers, i) != '2' ==> exists k :: (0 <= k < |layers| && Opaque(layers, k, i)
      && layers[k][i] == Visible(layers, i) && forall j :: 0 <= j < k ==> !Opaque(layers, j, i))
  {
    if |layers| > 0 && !Opaque(layers, 0, i) {
      VisibleIsFirstOpaque(layers[1..], i);
      forall k | 1 <= k < |layers|
        ensures Opaque(layers, k, i) == Opaque(layers[1..], k - 1, i)
      {
        assert layers[1..][k - 1] == layers[k];
      }
      if Visible(layers, i) != '2' {
        var k :| 0 <= k < |layers[1..]| && Opaque(layers[1..], k, i)
          && layers[1..][k][i] == Visible(layers, i) && forall j :: 0 <= j < k ==> !Opaque(layers[1..], j, i);
        assert layers[k + 1] == layers[1..][k];
        assert Opaque(layers, k + 1, i);
      }
    }
  }

  /** Adding a layer underneath only shows through where the stack above
      is transparent. */
  lemma {:induction false} VisibleSnoc(layers: seq<string>, layer: string, i: nat)
    ensures Visible(layers + [layer], i) ==
      if Visible(layers, i) != '2' then Visible(layers, i)
      else if i < |layer| then layer[i] else '2'
  {
    if |layers| > 0 {
      assert (layers + [layer])[1..] == layers[1..] + [layer];
      VisibleSnoc(layers[1..], layer, i);
    } else {
      assert [] + [layer] == [layer];
    }
  }

  /** The first `n` pixels of the stacked layers. */
  function Composed(layers: seq<string>, n: nat): (r: string)
    ensures |r| == n
    ensures forall i :: 0 <= i < n ==> r[i] == Visible(layers, i)
  {
    seq(n, i requires 0 <= i < n => Visible(layers, i))
  }

  /** Starts from all-transparent pixels and lets each layer fill in the
      pixels still transparent, overwriting the buffer in place. */
  method Stack(layers: seq<string>, n: nat) returns (buf: array<char>)
    ensures fresh(buf) && buf[..] == Composed(layers, n)
  {
    buf := new char[n];
    for i := 0 to n
      invariant forall j :: 0 <= j < i ==> buf[j] == '2'
    {
      buf[i] := '2';
    }
    for k := 0 to |layers|
      invariant forall j :: 0 <= j < n ==> buf[j] == Visible(layers[..k], j)
    {
      Overlay(buf, layers[..k], layers[k]);
      assert layers[..k + 1] == layers[..k] + [layers[k]];
    }
    assert layers[..|layers|] == layers;
  }

  /** One layer under the buffer: `zip` pairs its pixels with the buffer's
      and stops at the shorter one. */
  method Overlay(buf: array<char>, above: seq<string>, layer: string)
    requires forall j :: 0 <= j < buf.Length ==> buf[j] == Visible(above, j)
    modifies buf
    ensures forall j :: 0 <= j < buf.Length ==> buf[j] == Visible(above + [layer], j)
  {
    var m := Min(|layer|, buf.Length);
    for i := 0 to m
      invariant forall j :: 0 <= j < i ==> buf[j] == Visible(above + [layer], j)
      invariant forall j :: i <= j < buf.Length ==> buf[j] == Visible(above, j)
    {
      VisibleSnoc(above, layer, i);
      if buf[i] == '2' {
        buf[i] := layer[i];
      }
    }
    forall j | m <= j < buf.Length
      ensures buf[j] == Visible(above + [layer], j)
    {
      VisibleSnoc(above, layer, j);
    }
  }

  /** '0' draws as a space, anything else as 'X'. */
  function Shade(c: char): (s: char)
    ensures s == ' ' <==> c == '0'
    ensures s == 'X' <==> c != '0'
  {
    if c == '0' then ' ' else 'X'
  }

  lemma RowFits(w: nat, h: nat, r: nat)
    requires r < h
    ensures r * w + w <= w * h
  {
    assert r * w + w == (r + 1) * w;
  }

  /** Row `r` of the picture. */
  function RowText(buf: seq<char>, w: nat, r: nat): (s: string)
    requires r * w + w <= |buf|
    ensures |s| == w
    ensures forall j :: 0 <= j < w ==> s[j] == Shade(buf[r * w + j])
  {
    seq(w, j requires 0 <= j < w => Shade(buf[r * w + j]))
  }

  /** The first `h` rows of the picture. */
  function Rows(buf: seq<char>, w: nat, h: nat): (rows: seq<string>)
    requires w * h <= |buf|
    ensures |rows| == h
  {
    seq(h, r requires 0 <= r < h => RowFits(w, h, r); RowText(buf, w, r))
  }

  /** Draws `height` rows of `width` pixels, separated by line feeds. */
  method EncodeImage(buffer: seq<char>, width: nat, height: nat) returns (result: string)
    requires width * height <= |buffer|
    ensures result == Join(Rows(buffer, width, height), '\n')
  {
    result := "";
    var first := true;
    for h := 0 to height
      invariant first <==> h == 0
      invariant result == Join(Rows(buffer, width, h), '\n')
    {
      RowFits(width, height, h);
      assert width * h <= width * height by { RowFits(width, height, h); }
      var before := result;
      if !first {
        result := result + ['\n'];
      }
      first := false;
      for w := 0 to width
        invariant result == before + (if h > 0 then "\n" else "") + RowText(buffer, width, h)[..w]
      {
        result := result + [if buffer[h * width + w] == '0' then ' ' else 'X'];
      }
      RowFits(width, height + 0, h);
      assert width * (h + 1) <= |buffer| by { assert width * (h + 1) == h * width + width; }
      assert Rows(buffer, width, h + 1) == Rows(buffer, width, h) + [RowText(buffer, width, h)];
      if h > 0 {
        JoinSnoc(Rows(buffer, width, h), RowText(buffer, width, h), '\n');
      }
    }
  }

  /** The drawing splits at its line feeds into exactly the rows: no
      trailing line feed, and each row shows its pixels. */
  lemma EncodedLines(buffer: seq<char>, width: nat, height: nat)
    requires width * height <= |buffer| && height > 0
    ensures Split(Join(Rows(buffer, width, height), '\n'), '\n') == Rows(buffer, width, height)
  {
    SplitJoin(Rows(buffer, width, height), '\n');
  }

  /** Stacks the layers and draws the result. */
  method PartTwo(img: Image) returns (r: string)
    requires img.width * img.height > 0
    ensures r == Join(Rows(Composed(Layers(img), img.width * img.height), img.width, img.height), '\n')
  {
    var buf := Stack(Layers(img), img.width * img.height);
    r := EncodeImage(buf[..], img.width, img.height);
  }

  lemma ChunksPrepend(a: string, rest: string, n: nat)
    requires n > 0 && |a| == n && |rest| > 0
    ensures Chunks(a + rest, n) == [a] + Chunks(rest, n)
  {
    assert (a + rest)[..n] == a && (a + rest)[n..] == rest;
  }

  lemma ExampleTrimmed()
    ensures Trim("0222112222120000") == "0222112222120000"
  {
    TrimKeepsInnerText("0222112222120000");
  }

  lemma ExampleChunks()
    ensures Chunks("0222112222120000", 4) == ["0222", "1122", "2212", "0000"]
  {
    assert "0222112222120000" == "0222" + ("1122" + ("2212" + "0000"));
    ChunksPrepend("2212", "0000", 4);
    ChunksPrepend("1122", "2212" + "0000", 4);
    ChunksPrepend("0222", "1122" + ("2212" + "0000"), 4);
  }

  /** The worked example, a 2 by 2 image of four layers: first its
      layers, */
  lemma ExampleLayers()
    ensures Layers(Image("0222112222120000", 2, 2)) == ["0222", "1122", "2212", "0000"]
  {
    ExampleTrimmed();
    ExampleChunks();
  }

  /** then the stacked pixels, */
  lemma ExampleComposed()
    ensures Composed(["0222", "1122", "2212", "0000"], 4) == "0110"
  {
    var layers := ["0222", "1122", "2212", "0000"];
    assert Visible(layers, 0) == '0';
    assert Visible(layers, 1) == '1' by { assert layers[1..][0][1] == '1'; }
    assert Visible(layers, 2) == '1' by { assert layers[1..][1..][0][2] == '1'; }
    assert Visible(layers, 3) == '0' by { assert layers[1..][1..][1..][0][3] == '0'; }
  }

  /** and the drawing: a space and an 'X' over an 'X' and a space. */
  lemma ExampleDrawn()
    ensures Join(Rows("0110", 2, 2), '\n') == " X\nX "
  {
    var p := "0110";
    var top, bottom := RowText(p, 2, 0), RowText(p, 2, 1);
    assert top[0] == ' ' && top[1] == 'X';
    assert bottom[0] == 'X' && bottom[1] == ' ';
    assert Rows(p, 2, 2) == [top, bottom];
    assert Join([top, bottom], '\n') == top + "\n" + bottom;
  }
}
