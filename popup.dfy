/**
 * The geometry and the feature string of the share popup that
 * `Plugin.prototype.renderPopup` passes to `window.open`.
 */
module Popup {
  import opened Wrappers
  import opened Strings

  /** `t.data - width || 800`: the `var` being initialised is still
      `undefined` when the subtraction runs, so the difference is NaN,
      which is falsy, and the popup is always 800 pixels wide. The height
      is 500 for the same reason. */
  const Width: int := 800
  const Height: int := 500

  /** `screen.availWidth || 1024` and `screen.availHeight || 700`: a zero
      (or missing) screen size falls back to these. */
  const FallbackWidth: int := 1024
  const FallbackHeight: int := 700

  /** `avail || fallback` for a screen dimension. */
  function ScreenSize(avail: int, fallback: int): int
  {
    if avail != 0 then avail else fallback
  }

  /** `Math.floor((size - extent) / 2)`: half of the room the popup leaves,
      rounded towards minus infinity. */
  function Offset(size: int, extent: int): (r: int)
    ensures 2 * r <= size - extent < 2 * r + 2
  {
    (size - extent) / 2
  }

  /** `px`. */
  function Left(availWidth: int): int
  {
    Offset(ScreenSize(availWidth, FallbackWidth), Width)
  }

  /** `py`. */
  function Top(availHeight: int): int
  {
    Offset(ScreenSize(availHeight, FallbackHeight), Height)
  }

  /** The popup is centred on the screen: the margin to its right is the
      margin to its left or one pixel more. */
  lemma Centred(availWidth: int, availHeight: int)
    ensures var w := ScreenSize(availWidth, FallbackWidth);
      var px := Left(availWidth);
      px <= w - Width - px <= px + 1
    ensures var h := ScreenSize(availHeight, FallbackHeight);
      var py := Top(availHeight);
      py <= h - Height - py <= py + 1
  {
  }

  /** The names of the `features` entries, in order. */
  const FeatureNames: seq<string> :=
    ["width", "height", "left", "top", "location", "menubar", "toolbar", "status", "scrollbars", "resizable"]

  /** Their values: the size and position, then fixed flags. */
  function FeatureValues(availWidth: int, availHeight: int): seq<string>
  {
    [ IntToString(Width), IntToString(Height), IntToString(Left(availWidth)), IntToString(Top(availHeight)),
      "0", "0", "0", "0", "1", "1" ]
  }

  /** `name=value` for each name and its value. */
  function Entries(names: seq<string>, values: seq<string>): (e: seq<string>)
    requires |names| == |values|
    ensures |e| == |names|
  {
    seq(|names|, i requires 0 <= i < |names| => names[i] + "=" + values[i])
  }

  /** The `features` array. */
  function Features(availWidth: int, availHeight: int): seq<string>
  {
    Entries(FeatureNames, FeatureValues(availWidth, availHeight))
  }

  /** `features.join(',')`, the third argument of `window.open`. */
  function FeatureString(availWidth: int, availHeight: int): string
  {
    Join(Features(availWidth, availHeight), ",")
  }

  // ---- reading the features back ----

  predicate StartsWith(s: string, prefix: string)
  {
    |prefix| <= |s| && s[..|prefix|] == prefix
  }

  /** The value of the first `name=value` entry, as a window-features
      parser reads it. */
  function FeatureValue(entries: seq<string>, name: string): Option<string>
  {
    if |entries| == 0 then None
    else if StartsWith(entries[0], name + "=") then Some(entries[0][|name| + 1..])
    else FeatureValue(entries[1..], name)
  }

  /** An entry for one name is not read as the entry of another. */
  lemma OtherName(n: string, value: string, m: string)
    requires n != m && '=' !in n && '=' !in m
    ensures !StartsWith(n + "=" + value, m + "=")
  {
    var s := n + "=" + value;
    var p := m + "=";
    if |p| <= |s| {
      if |m| < |n| {
        assert s[..|p|][|m|] == n[|m|] && p[|m|] == '=';
      } else if |m| > |n| {
        assert s[..|p|][|n|] == '=' && p[|n|] == m[|n|];
      } else {
        assert s[..|p|][..|m|] == n && p[..|m|] == m;
      }
    }
  }

  lemma OwnName(n: string, value: string)
    ensures StartsWith(n + "=" + value, n + "=")
    ensures (n + "=" + value)[|n| + 1..] == value
  {
    var s := n + "=" + value;
    assert s[..|n| + 1] == n + "=";
  }

  /** Reading `name=value` entries with distinct names finds each value. */
  lemma {:induction false} ReadEntries(names: seq<string>, values: seq<string>, j: nat)
    requires |names| == |values| && j < |names|
    requires forall i, k | 0 <= i < k < |names| :: names[i] != names[k]
    requires forall i | 0 <= i < |names| :: '=' !in names[i]
    ensures FeatureValue(Entries(names, values), names[j]) == Some(values[j])
  {
    var e := Entries(names, values);
    if j == 0 {
      OwnName(names[0], values[0]);
    } else {
      OtherName(names[0], values[0], names[j]);
      assert e[1..] == Entries(names[1..], values[1..]);
      ReadEntries(names[1..], values[1..], j - 1);
    }
  }

  lemma FeatureNamesDistinct()
    ensures forall i, k | 0 <= i < k < |FeatureNames| :: FeatureNames[i] != FeatureNames[k]
    ensures forall i | 0 <= i < |FeatureNames| :: '=' !in FeatureNames[i]
  {
  }

  /** The entries of the feature string are the ten features. */
  lemma FeatureEntries(availWidth: int, availHeight: int)
    ensures Split(FeatureString(availWidth, availHeight), ',') == Features(availWidth, availHeight)
  {
    var f := Features(availWidth, availHeight);
    forall k | 0 <= k < |f| ensures ',' !in f[k] {
      assert f[k] == FeatureNames[k] + "=" + FeatureValues(availWidth, availHeight)[k];
    }
    SplitJoin(f, ',');
  }

  /** A browser reading the feature string back finds every feature's
      value, and the popup's position as decimal numbers. */
  lemma GeometryReadBack(availWidth: int, availHeight: int, j: nat)
    requires j < |FeatureNames|
    ensures var entries := Split(FeatureString(availWidth, availHeight), ',');
      FeatureValue(entries, FeatureNames[j]) == Some(FeatureValues(availWidth, availHeight)[j])
    ensures FeatureValues(availWidth, availHeight)[2] == IntToString(Left(availWidth))
    ensures FeatureValues(availWidth, availHeight)[3] == IntToString(Top(availHeight))
    ensures ParseInt(FeatureValues(availWidth, availHeight)[2]) == Left(availWidth)
    ensures ParseInt(FeatureValues(availWidth, availHeight)[3]) == Top(availHeight)
  {
    FeatureEntries(availWidth, availHeight);
    FeatureNamesDistinct();
    ReadEntries(FeatureNames, FeatureValues(availWidth, availHeight), j);
    PositionValues(availWidth, availHeight);
    IntToStringRoundTrip(Left(availWidth));
    IntToStringRoundTrip(Top(availHeight));
  }

  lemma PositionValues(availWidth: int, availHeight: int)
    ensures FeatureValues(availWidth, availHeight)[2] == IntToString(Left(availWidth))
    ensures FeatureValues(availWidth, availHeight)[3] == IntToString(Top(availHeight))
  {
  }

  /** On a 1024 by 700 screen the popup sits at (112, 100): the feature
      string is the ten entries below, joined by commas. */
  lemma StandardScreen()
    ensures Split(FeatureString(1024, 700), ',')
         == ["width=800", "height=500", "left=112", "top=100", "location=0",
             "menubar=0", "toolbar=0", "status=0", "scrollbars=1", "resizable=1"]
  {
    StandardFeatures();
    FeatureEntries(1024, 700);
  }

  lemma StandardValues()
    ensures FeatureValues(1024, 700) == ["800", "500", "112", "100", "0", "0", "0", "0", "1", "1"]
  {
    assert Left(1024) == 112 && Top(700) == 100;
    assert IntToString(800) == "800" && IntToString(500) == "500";
    assert IntToString(112) == "112" && IntToString(100) == "100";
  }

  lemma StandardFeatures()
    ensures Features(1024, 700)
         == ["width=800", "height=500", "left=112", "top=100", "location=0",
             "menubar=0", "toolbar=0", "status=0", "scrollbars=1", "resizable=1"]
  {
    StandardValues();
    var f := Features(1024, 700);
    var v := FeatureValues(1024, 700);
    forall k | 0 <= k < 10 ensures f[k] == FeatureNames[k] + "=" + v[k] {
    }
    assert f[0] == "width=800" && f[1] == "height=500" && f[2] == "left=112" && f[3] == "top=100";
    assert f[4] == "location=0" && f[5] == "menubar=0" && f[6] == "toolbar=0";
    assert f[7] == "status=0" && f[8] == "scrollbars=1" && f[9] == "resizable=1";
  }

  /** A screen reporting no size is taken to be 1024 by 700. */
  lemma UnknownScreen()
    ensures FeatureString(0, 0) == FeatureString(1024, 700)
  {
  }

  /** On a screen narrower than the popup, the offset is rounded down, not
      towards zero. */
  lemma NarrowScreen()
    ensures Left(799) == -1
    ensures "left=-1" in Features(799, 700)
  {
    assert IntToString(-1) == "-1";
    assert Features(799, 700)[2] == "left=-1";
  }
}
