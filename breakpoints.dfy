/**
 * The media-query builder for styled components: one `@media` block per
 * breakpoint entry, folded into a single text, and the fixed mobile query.
 */
module Breakpoints {
  import opened JsText

  /** The options object: a CSS property, its units, the entries and the media feature compared. */
  datatype BreakpointValues = BreakpointValues(cssProp: string, cssPropUnits: string,
                                               values: seq<seq<(string, int)>>, mediaQueryType: string)

  /** A template-literal slot: an absent first key or value prints as "undefined". */
  function FirstKey(entry: seq<(string, int)>): string
  {
    if |entry| == 0 then "undefined" else entry[0].0
  }

  function FirstValue(entry: seq<(string, int)>): string
  {
    if |entry| == 0 then "undefined" else IntToString(entry[0].1)
  }

  /** The fixed pieces of the block template. */
  const QueryOpen := "\n    @media screen and ("
  const BodyOpen := "px) {\n      "
  const BodyClose := ";\n    }\n    "

  /** The head of a media query on `mediaQueryType` at `screen` pixels. */
  function MediaQueryHead(mediaQueryType: string, screen: string): string
  {
    QueryOpen + mediaQueryType + ": " + screen + "px)"
  }

  /** The media-query head of an entry, before its body. */
  function EntryHead(o: BreakpointValues, entry: seq<(string, int)>): string
  {
    QueryOpen + o.mediaQueryType + ": " + FirstKey(entry)
  }

  /**
   * The block one entry adds: a media query whose width is the entry's first key,
   * around a declaration of the CSS property at the entry's first value.
   */
  function Block(o: BreakpointValues, entry: seq<(string, int)>): (b: string)
    ensures var head := EntryHead(o, entry);
      |head| <= |b| && b[..|head|] == head
    ensures var body := BodyOpen + o.cssProp + ": " + FirstValue(entry) + o.cssPropUnits + BodyClose;
      |body| <= |b| && b[|b| - |body|..] == body
  {
    var head := EntryHead(o, entry);
    var body := BodyOpen + o.cssProp + ": " + FirstValue(entry) + o.cssPropUnits + BodyClose;
    var b := QueryOpen + o.mediaQueryType + ": " + FirstKey(entry) + BodyOpen
             + o.cssProp + ": " + FirstValue(entry) + o.cssPropUnits + BodyClose;
    assert b == head + body;
    b
  }

  /** `xs.reduce((text, x) => text + f(x), "")`. */
  function ReduceAppend<T>(xs: seq<T>, f: T -> string): string
  {
    if |xs| == 0 then "" else ReduceAppend(xs[..|xs| - 1], f) + f(xs[|xs| - 1])
  }

  /** Reducing a concatenation is reducing each part, one after the other. */
  lemma {:induction false} ReduceAppendSplit<T>(xs: seq<T>, ys: seq<T>, f: T -> string)
    ensures ReduceAppend(xs + ys, f) == ReduceAppend(xs, f) + ReduceAppend(ys, f)
    decreases |ys|
  {
    if |ys| == 0 {
      assert xs + ys == xs;
    } else {
      var n := |ys|;
      assert (xs + ys)[..|xs + ys| - 1] == xs + ys[..n - 1];
      ReduceAppendSplit(xs, ys[..n - 1], f);
    }
  }

  /** The reduced text opens with the first element's text. */
  lemma {:induction false} ReduceAppendFirst<T>(xs: seq<T>, f: T -> string)
    requires |xs| > 0
    ensures f(xs[0]) <= ReduceAppend(xs, f)
    decreases |xs|
  {
    if |xs| > 1 {
      ReduceAppendFirst(xs[..|xs| - 1], f);
      assert xs[..|xs| - 1][0] == xs[0];
    } else {
      assert xs[..0] == [];
    }
  }

  /** The block of each entry, as the function `reduce` applies. */
  function Blocks(o: BreakpointValues): seq<(string, int)> -> string
  {
    entry => Block(o, entry)
  }

  /**
   * `values.reduce((mediaQueries, value) => mediaQueries + block(value), "")`:
   * nothing for no entries, otherwise text that opens with the first entry's
   * block and closes with the last one's.
   */
  function Fold(o: BreakpointValues, values: seq<seq<(string, int)>>): (r: string)
    ensures |values| == 0 ==> r == ""
    ensures |values| > 0 ==> Block(o, values[0]) <= r
    ensures |values| > 0 ==> var last := Block(o, values[|values| - 1]);
      |last| <= |r| && r[|r| - |last|..] == last
  {
    if |values| == 0 then ""
    else
      ReduceAppendFirst(values, Blocks(o));
      var r := ReduceAppend(values, Blocks(o));
      var last := Block(o, values[|values| - 1]);
      assert r == ReduceAppend(values[..|values| - 1], Blocks(o)) + last;
      assert r[|r| - |last|..] == last;
      r
  }

  /**
   * The text handed to `css`: the fold over the options' own entries, empty for
   * no entries and otherwise opening with the first entry's media-query head.
   */
  function BreakpointProps(o: BreakpointValues): (r: string)
    ensures o.values == [] ==> r == ""
    ensures |o.values| > 0 ==> var head := EntryHead(o, o.values[0]);
      |head| <= |r| && r[..|head|] == head
  {
    var r := Fold(o, o.values);
    assert |o.values| > 0 ==> r[..|EntryHead(o, o.values[0])|] == Block(o, o.values[0])[..|EntryHead(o, o.values[0])|];
    r
  }

  /** The fold over two lists of entries is the fold over the first followed by the fold over the second. */
  lemma FoldAppend(o: BreakpointValues, a: seq<seq<(string, int)>>, b: seq<seq<(string, int)>>)
    ensures Fold(o, a + b) == Fold(o, a) + Fold(o, b)
  {
    ReduceAppendSplit(a, b, Blocks(o));
  }

  /** One block per entry, in entry order. */
  lemma {:induction false} FoldBlocks(o: BreakpointValues, values: seq<seq<(string, int)>>, v: seq<(string, int)>)
    ensures Fold(o, [v] + values) == Block(o, v) + Fold(o, values)
  {
    FoldAppend(o, [v], values);
    assert Fold(o, [v]) == Block(o, v) by {
      assert [v][..0] == [];
      assert ReduceAppend([v], Blocks(o)) == ReduceAppend([], Blocks(o)) + Blocks(o)(v);
      assert Fold(o, [v]) == ReduceAppend([v], Blocks(o));
    }
  }

  /** `BREAKPOINTS.mobile`. */
  const Mobile := "\n    @media screen and (max-width: 500px) \n    "

  /** The mobile query is the head a 500-pixel max-width entry gets. */
  lemma MobileIsMaxWidth500()
    ensures Mobile == MediaQueryHead("max-width", "500") + " \n    "
  {
    assert QueryOpen + "max-width" + ": " + "500" + "px)" + " \n    " == Mobile;
  }

  /** The documented example entry `{ 800: 60 }` with units "px". */
  lemma BlockExample()
    ensures Block(BreakpointValues("width", "px", [], "max-width"), [("800", 60)])
            == QueryOpen + "max-width" + ": " + "800" + BodyOpen + "width" + ": " + "60" + "px" + BodyClose
  {
    assert FirstKey([("800", 60)]) == "800";
    assert FirstValue([("800", 60)]) == "60" by {
      assert NatToString(6) == "6";
    }
  }
}
