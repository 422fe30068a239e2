/**
 * The theme getters: a simple getter reads one entry of a theme table, and a
 * multi getter reads up to four entries, top/right/bottom/left as in a CSS
 * shorthand, and joins them with single spaces.
 */
module ThemeGetter {
  import opened Wrappers
  import opened JsText

  /** `config[option][value]`: `undefined` for a key the table does not have. */
  function SimpleGet<K>(table: map<K, string>, value: K): (r: Option<string>)
    ensures r.Some? <==> value in table
    ensures r.Some? ==> r.value == table[value]
  {
    Lookup(table, value)
  }

  /** What `Array.prototype.join` writes for an element: `undefined` becomes the empty text. */
  function JoinText(v: Option<string>): string
  {
    if v.Some? then v.value else ""
  }

  /** The looked-up parts, in argument order, of the arguments that are not nil. */
  function Parts<K>(table: map<K, string>, args: seq<Option<K>>): (r: seq<string>)
    ensures |r| <= |args|
  {
    if |args| == 0 then []
    else
      var rest := Parts(table, args[1..]);
      if args[0].Some? then [JoinText(SimpleGet(table, args[0].value))] + rest else rest
  }

  /** The number of arguments that are not nil. */
  function Given<K>(args: seq<Option<K>>): nat
  {
    if |args| == 0 then 0 else (if args[0].Some? then 1 else 0) + Given(args[1..])
  }

  /**
   * `multiGetter(top, right?, bottom?, left?)`: a single argument gives its value
   * alone; when no table value holds a space, the result splits on spaces back
   * into the parts of the given arguments.
   */
  function MultiGet<K>(table: map<K, string>, top: K, right: Option<K>, bottom: Option<K>, left: Option<K>): (r: string)
    ensures right.None? && bottom.None? && left.None? ==> r == JoinText(SimpleGet(table, top))
    ensures (forall k :: k in table ==> ' ' !in table[k]) ==> Split(r, ' ') == Parts(table, [Some(top), right, bottom, left])
  {
    var args := [Some(top), right, bottom, left];
    PartsOfFour(table, top, right, bottom, left);
    var r := Join(Parts(table, args), " ");
    assert (forall k :: k in table ==> ' ' !in table[k]) ==> Split(r, ' ') == Parts(table, args) by {
      if forall k :: k in table ==> ' ' !in table[k] {
        PartsHaveNoSpace(table, args);
        JoinThenSplit(Parts(table, args), ' ');
      }
    }
    r
  }

  /** One part per argument that is not nil. */
  lemma {:induction false} PartsCount<K>(table: map<K, string>, args: seq<Option<K>>)
    ensures |Parts(table, args)| == Given(args)
  {
    if |args| > 0 {
      PartsCount(table, args[1..]);
    }
  }

  /** The parts follow the arguments: the given ones, looked up, in top/right/bottom/left order. */
  lemma {:induction false} PartsInOrder<K>(table: map<K, string>, args: seq<Option<K>>)
    requires forall i :: 0 <= i < |args| ==> args[i].Some?
    ensures Parts(table, args) == seq(|args|, i requires 0 <= i < |args| => JoinText(SimpleGet(table, args[i].value)))
  {
    if |args| > 0 {
      PartsInOrder(table, args[1..]);
    }
  }

  function PartOf<K>(table: map<K, string>, a: Option<K>): seq<string>
  {
    if a.Some? then [JoinText(SimpleGet(table, a.value))] else []
  }

  /** The four arguments contribute in top/right/bottom/left order, each nil one contributing nothing. */
  lemma PartsOfFour<K>(table: map<K, string>, top: K, right: Option<K>, bottom: Option<K>, left: Option<K>)
    ensures Parts(table, [Some(top), right, bottom, left])
            == PartOf(table, Some(top)) + (PartOf(table, right) + (PartOf(table, bottom) + PartOf(table, left)))
  {
    var args := [Some(top), right, bottom, left];
    assert args[1..] == [right, bottom, left];
    assert [right, bottom, left][1..] == [bottom, left];
    assert [bottom, left][1..] == [left];
    assert [left][1..] == [];
    var p4 := Parts(table, [left]);
    assert p4 == PartOf(table, left);
    var p3 := Parts(table, [bottom, left]);
    assert p3 == PartOf(table, bottom) + p4;
    var p2 := Parts(table, [right, bottom, left]);
    assert p2 == PartOf(table, right) + p3;
    assert Parts(table, args) == PartOf(table, Some(top)) + p2;
  }

  lemma {:induction false} PartsHaveNoSpace<K>(table: map<K, string>, args: seq<Option<K>>)
    requires forall k :: k in table ==> ' ' !in table[k]
    requires |args| >= 1 && args[0].Some?
    ensures |Parts(table, args)| >= 1
    ensures forall i :: 0 <= i < |Parts(table, args)| ==> ' ' !in Parts(table, args)[i]
  {
    var rest := Parts(table, args[1..]);
    assert forall i :: 0 <= i < |rest| ==> ' ' !in rest[i] by {
      if |args| > 1 && args[1].Some? {
        PartsHaveNoSpace(table, args[1..]);
      } else if |args| > 1 {
        PartsHaveNoSpaceAny(table, args[1..]);
      }
    }
  }

  lemma {:induction false} PartsHaveNoSpaceAny<K>(table: map<K, string>, args: seq<Option<K>>)
    requires forall k :: k in table ==> ' ' !in table[k]
    ensures forall i :: 0 <= i < |Parts(table, args)| ==> ' ' !in Parts(table, args)[i]
  {
    if |args| > 0 {
      PartsHaveNoSpaceAny(table, args[1..]);
    }
  }

  /** A spacing table holding the entries the documented examples use. */
  predicate DocumentedSpacing(spacing: map<int, string>)
  {
    0 in spacing && spacing[0] == "0" && 4 in spacing && spacing[4] == "4px"
    && 8 in spacing && spacing[8] == "8px" && 16 in spacing && spacing[16] == "16px"
  }

  /** The documented example `spacing(4, 8)`. */
  lemma TwoValueExample(spacing: map<int, string>)
    requires DocumentedSpacing(spacing)
    ensures MultiGet(spacing, 4, Some(8), None, None) == "4px 8px"
  {
    PartsOfFour(spacing, 4, Some(8), None, None);
    var parts := ["4px", "8px"];
    assert Parts(spacing, [Some(4), Some(8), None, None]) == parts;
    assert parts[1..] == ["8px"];
  }

  /** The documented example `spacing(4, 0, 8, 16)`. */
  lemma FourValueExample(spacing: map<int, string>)
    requires DocumentedSpacing(spacing)
    ensures MultiGet(spacing, 4, Some(0), Some(8), Some(16)) == "4px 0 8px 16px"
  {
    PartsOfFour(spacing, 4, Some(0), Some(8), Some(16));
    var parts := ["4px", "0", "8px", "16px"];
    assert Parts(spacing, [Some(4), Some(0), Some(8), Some(16)]) == parts;
    assert parts[1..] == ["0", "8px", "16px"];
    assert parts[1..][1..] == ["8px", "16px"];
    assert parts[1..][1..][1..] == ["16px"];
    assert Join(parts[1..][1..], " ") == "8px 16px";
    assert Join(parts[1..], " ") == "0 8px 16px";
  }
}
