/** The version-name helpers of the version lists: the numeric sort key, the
    category a version directory is filed under, and the display names that
    keep two versions with the same pretty name apart. */
module Versions {
  import opened Wrappers
  import opened Text

  // ---------------------------------------------------------------------
  // The sort key.
  // ---------------------------------------------------------------------

  /** The longest prefix of ASCII digits. */
  function DigitRun(s: string): (d: string)
    ensures d <= s && AllDigits(d)
    ensures |d| == |s| || !IsDigit(s[|d|])
    decreases |s|
  {
    if s == [] || !IsDigit(s[0]) then [] else [s[0]] + DigitRun(s[1..])
  }

  /** The pattern `(\d+)\.(\d+)(?:\.(\d+))?` matched at the start of `s`,
      its groups read as integers and a missing third group read as 0. Each
      run of digits is maximal, so the greedy match needs no backtracking. */
  function MatchVersionAt(s: string): Option<(nat, nat, nat)> {
    var d1 := DigitRun(s);
    if d1 == [] || |s| < |d1| + 2 || s[|d1|] != '.' || !IsDigit(s[|d1| + 1]) then None
    else
      var rest := s[|d1| + 1..];
      var d2 := DigitRun(rest);
      Some((DigitsValue(d1), DigitsValue(d2), DigitsValue(ThirdGroup(rest[|d2|..]))))
  }

  /** The optional group `(?:\.(\d+))?` after the second number: its digits,
      or nothing. */
  function ThirdGroup(after: string): (d: string)
    ensures AllDigits(d)
  {
    if |after| >= 2 && after[0] == '.' && IsDigit(after[1]) then DigitRun(after[1..]) else []
  }

  /** `_version_key`: the leftmost match, else (0, 0, 0). */
  function VersionKey(s: string): (nat, nat, nat)
    decreases |s|
  {
    if s == [] then (0, 0, 0)
    else
      match MatchVersionAt(s)
      case Some(k) => k
      case None => VersionKey(s[1..])
  }

  /** The order `sorted(..., reverse=True)` puts first: tuples compared
      lexicographically. */
  predicate KeyGreater(x: (nat, nat, nat), y: (nat, nat, nat)) {
    x.0 > y.0 || (x.0 == y.0 && (x.1 > y.1 || (x.1 == y.1 && x.2 > y.2)))
  }

  lemma {:induction false} DigitRunOf(d: string, rest: string)
    requires AllDigits(d)
    requires rest == [] || !IsDigit(rest[0])
    ensures DigitRun(d + rest) == d
    decreases |d|
  {
    if d != [] {
      assert (d + rest)[1..] == d[1..] + rest;
      DigitRunOf(d[1..], rest);
      assert d == [d[0]] + d[1..];
    } else {
      assert d + rest == rest;
    }
  }

  /** A first number, a dot and a digit start a match; the second number is
      the digit run that follows the dot. */
  lemma {:induction false} MatchOfMajor(d1: string, r: string)
    requires d1 != [] && AllDigits(d1) && r != [] && IsDigit(r[0])
    ensures var d2 := DigitRun(r);
      MatchVersionAt(d1 + "." + r) == Some((DigitsValue(d1), DigitsValue(d2), DigitsValue(ThirdGroup(r[|d2|..]))))
  {
    var s := d1 + ("." + r);
    assert d1 + "." + r == s;
    assert DigitRun(s) == d1 by {
      DigitRunOf(d1, "." + r);
    }
    assert s[|d1|] == '.' && s[|d1| + 1] == r[0];
    assert s[|d1| + 1..] == r;
  }

  lemma {:induction false} ThirdOfDot(d3: string, rest: string)
    requires d3 != [] && AllDigits(d3)
    requires rest == [] || !IsDigit(rest[0])
    ensures ThirdGroup("." + d3 + rest) == d3
  {
    var after := "." + d3 + rest;
    assert after[0] == '.' && after[1] == d3[0];
    assert after[1..] == d3 + rest;
    DigitRunOf(d3, rest);
  }

  /** The pattern matched at the start of `d1.d2.d3rest` for digit runs
      `d1`, `d2`, `d3` gives exactly their values. */
  lemma {:induction false} MatchOfRelease(d1: string, d2: string, d3: string, rest: string)
    requires d1 != [] && d2 != [] && d3 != [] && AllDigits(d1) && AllDigits(d2) && AllDigits(d3)
    requires rest == [] || !IsDigit(rest[0])
    ensures MatchVersionAt(d1 + "." + d2 + "." + d3 + rest) == Some((DigitsValue(d1), DigitsValue(d2), DigitsValue(d3)))
  {
    var tail := "." + d3 + rest;
    var r := d2 + tail;
    assert d1 + "." + d2 + "." + d3 + rest == d1 + "." + r;
    assert r[0] == d2[0];
    MatchOfMajor(d1, r);
    assert DigitRun(r) == d2 by {
      DigitRunOf(d2, tail);
    }
    assert r[|d2|..] == tail;
    ThirdOfDot(d3, rest);
  }

  /** The pattern matched at the start of `d1.d2rest`, where `rest` starts
      with neither a digit nor a dot, gives a third part of 0. */
  lemma {:induction false} MatchOfPair(d1: string, d2: string, rest: string)
    requires d1 != [] && d2 != [] && AllDigits(d1) && AllDigits(d2)
    requires rest == [] || (!IsDigit(rest[0]) && rest[0] != '.')
    ensures MatchVersionAt(d1 + "." + d2 + rest) == Some((DigitsValue(d1), DigitsValue(d2), 0))
  {
    var r := d2 + rest;
    assert d1 + "." + d2 + rest == d1 + "." + r;
    assert r[0] == d2[0];
    MatchOfMajor(d1, r);
    assert DigitRun(r) == d2 by {
      DigitRunOf(d2, rest);
    }
    assert r[|d2|..] == rest;
    assert ThirdGroup(rest) == [];
  }

  /** The name of release `a.b.c`. */
  function ReleaseName(a: nat, b: nat, c: nat): string {
    NatToString(a) + "." + NatToString(b) + "." + NatToString(c)
  }

  /** A release name `a.b.c` followed by anything that does not continue the
      last number is keyed by its three numbers. */
  lemma {:induction false} VersionKeyOfRelease(a: nat, b: nat, c: nat, rest: string)
    requires rest == [] || !IsDigit(rest[0])
    ensures VersionKey(ReleaseName(a, b, c) + rest) == (a, b, c)
  {
    var sa, sb, sc := NatToString(a), NatToString(b), NatToString(c);
    assert ReleaseName(a, b, c) + rest == sa + "." + sb + "." + sc + rest;
    MatchOfRelease(sa, sb, sc, rest);
    DigitsValueOfNatToString(a);
    DigitsValueOfNatToString(b);
    DigitsValueOfNatToString(c);
  }

  /** A name `a.b` followed by neither a digit nor a dot has third part 0. */
  lemma {:induction false} VersionKeyOfPair(a: nat, b: nat, rest: string)
    requires rest == [] || (!IsDigit(rest[0]) && rest[0] != '.')
    ensures VersionKey(NatToString(a) + "." + NatToString(b) + rest) == (a, b, 0)
  {
    var sa, sb := NatToString(a), NatToString(b);
    MatchOfPair(sa, sb, rest);
    DigitsValueOfNatToString(a);
    DigitsValueOfNatToString(b);
  }

  /** Characters before the first digit do not change the key. */
  lemma {:induction false} VersionKeySkipsPrefix(p: string, s: string)
    requires forall i :: 0 <= i < |p| ==> !IsDigit(p[i])
    ensures VersionKey(p + s) == VersionKey(s)
    decreases |p|
  {
    if p != [] {
      assert (p + s)[0] == p[0];
      assert MatchVersionAt(p + s) == None;
      assert (p + s)[1..] == p[1..] + s;
      VersionKeySkipsPrefix(p[1..], s);
    } else {
      assert p + s == s;
    }
  }

  /** A name without a dot has no match and sorts last. */
  lemma {:induction false} VersionKeyWithoutDot(s: string)
    requires '.' !in s
    ensures VersionKey(s) == (0, 0, 0)
    decreases |s|
  {
    if s != [] {
      var d1 := DigitRun(s);
      if |s| >= |d1| + 2 {
        assert s[|d1|] in s;
      }
      assert MatchVersionAt(s) == None;
      VersionKeyWithoutDot(s[1..]);
    }
  }

  /** Releases sort by their numbers, not by their text: "1.12.2" comes
      before "1.9.4" because 12 > 9, although "1" < "9" as characters. */
  lemma {:induction false} ReleaseOrderIsNumeric(a: nat, b: nat, c: nat, x: nat, y: nat, z: nat)
    ensures KeyGreater(VersionKey(ReleaseName(a, b, c)), VersionKey(ReleaseName(x, y, z))) <==>
            (a > x || (a == x && (b > y || (b == y && c > z))))
  {
    assert ReleaseName(a, b, c) + "" == ReleaseName(a, b, c);
    assert ReleaseName(x, y, z) + "" == ReleaseName(x, y, z);
    VersionKeyOfRelease(a, b, c, "");
    VersionKeyOfRelease(x, y, z, "");
  }

  /** A name whose numbers follow a digit-free prefix is keyed by those
      numbers: an alpha name "a1.0.16" is keyed (1, 0, 16) and not sent to
      the end. */
  lemma {:induction false} PrefixedReleaseIsKeyed(p: string, a: nat, b: nat, c: nat, rest: string)
    requires forall i :: 0 <= i < |p| ==> !IsDigit(p[i])
    requires rest == [] || !IsDigit(rest[0])
    ensures VersionKey(p + ReleaseName(a, b, c) + rest) == (a, b, c)
  {
    assert p + ReleaseName(a, b, c) + rest == p + (ReleaseName(a, b, c) + rest);
    VersionKeySkipsPrefix(p, ReleaseName(a, b, c) + rest);
    VersionKeyOfRelease(a, b, c, rest);
  }

  // ---------------------------------------------------------------------
  // Categories.
  // ---------------------------------------------------------------------

  datatype Category = NeoForge | Forge | Fabric | OptiFine | Snapshots | AlphaBeta | Vanilla | Others {
    /** The key of the category in the version lists. */
    function Key(): string {
      match this
      case NeoForge => "neoforge"
      case Forge => "forge"
      case Fabric => "fabric"
      case OptiFine => "optifine"
      case Snapshots => "snapshots"
      case AlphaBeta => "alpha_beta"
      case Vanilla => "vanilla"
      case Others => "outros"
    }
  }

  /** `^\d+w\d+[a-z]?` searched: digits, 'w', a digit (the optional letter
      never decides a search). */
  predicate SnapshotPrefix(s: string) {
    var d := DigitRun(s);
    d != [] && |s| >= |d| + 2 && s[|d|] == 'w' && IsDigit(s[|d| + 1])
  }

  /** `^[ab](\d+)` searched. */
  predicate AlphaBetaPrefix(s: string) {
    |s| >= 2 && (s[0] == 'a' || s[0] == 'b') && IsDigit(s[1])
  }

  /** A non-empty run of digits preceded by `tag`. */
  predicate TaggedNumber(v: string, tag: string) {
    tag <= v && v[|tag|..] != [] && AllDigits(v[|tag|..])
  }

  /** `(?:-(?:pre|rc)\d+)?` matched up to the end. */
  predicate PreReleaseTail(u: string) {
    u == [] || (u[0] == '-' && (TaggedNumber(u[1..], "pre") || TaggedNumber(u[1..], "rc")))
  }

  /** `(?:\.(\d+))?(?:-(?:pre|rc)\d+)?` matched up to the end. */
  predicate PatchAndTail(t: string) {
    PreReleaseTail(t) ||
    (t != [] && t[0] == '.' && DigitRun(t[1..]) != [] && PreReleaseTail(t[1 + |DigitRun(t[1..])|..]))
  }

  /** `re.fullmatch(r'(\d+)\.(\d+)(?:\.(\d+))?(?:-(?:pre|rc)\d+)?', s)`. */
  predicate ReleaseFullMatch(s: string) {
    var d1 := DigitRun(s);
    d1 != [] && |s| > |d1| && s[|d1|] == '.' &&
    var r := s[|d1| + 1..];
    var d2 := DigitRun(r);
    d2 != [] && PatchAndTail(r[|d2|..])
  }

  /** `re.search(r'(\d+)\.(\d+)', s)`: a digit, a dot, a digit somewhere. */
  predicate HasDottedPair(s: string) {
    exists i :: 0 <= i && i + 2 < |s| && IsDigit(s[i]) && s[i + 1] == '.' && IsDigit(s[i + 2])
  }

  /** `_classify_version`: loader markers first (NeoForge before Forge), then
      snapshot and alpha/beta shapes on the lowered name, then the release
      shapes on the name as given. */
  function ClassifyVersion(name: string): Category {
    var low := Lower(name);
    if Contains(low, "neoforge") then NeoForge
    else if Contains(low, "forge") then Forge
    else if Contains(low, "fabric") then Fabric
    else if Contains(low, "optifine") then OptiFine
    else if Contains(low, "snapshot") || SnapshotPrefix(low) then Snapshots
    else if Contains(low, "infdev") || Contains(low, "c0.") || AlphaBetaPrefix(low) then AlphaBeta
    else if ReleaseFullMatch(name) then Vanilla
    else if HasDottedPair(name) then Vanilla
    else Others
  }

  /** A name holding "neoforge" is NeoForge, one holding only "forge" is
      Forge, and a name is filed under "others" exactly when it has no loader
      marker, no snapshot or alpha/beta shape and no digit-dot-digit. */
  lemma {:induction false} ClassifyVersionMarkers(name: string)
    ensures ClassifyVersion(name) == NeoForge <==> Contains(Lower(name), "neoforge")
    ensures ClassifyVersion(name) == Forge <==> !Contains(Lower(name), "neoforge") && Contains(Lower(name), "forge")
    ensures ClassifyVersion(name) == Others <==>
      && !Contains(Lower(name), "forge") && !Contains(Lower(name), "fabric") && !Contains(Lower(name), "optifine")
      && !Contains(Lower(name), "snapshot") && !SnapshotPrefix(Lower(name))
      && !Contains(Lower(name), "infdev") && !Contains(Lower(name), "c0.") && !AlphaBetaPrefix(Lower(name))
      && !HasDottedPair(name)
  {
    NeoForgeIsForge(Lower(name));
    ReleaseFullMatchHasDottedPair(name);
  }

  /** "neoforge" contains "forge". */
  lemma {:induction false} NeoForgeIsForge(s: string)
    ensures Contains(s, "neoforge") ==> Contains(s, "forge")
  {
    if Contains(s, "neoforge") {
      NeoForgeIsForgeAt(s);
    }
  }

  lemma {:induction false} NeoForgeIsForgeAt(s: string)
    requires Contains(s, "neoforge")
    ensures Contains(s, "forge")
    decreases |s|
  {
    if "neoforge" <= s {
      assert s == "neo" + "forge" + s[8..];
      ContainsAppended("neo", "forge", s[8..]);
    } else {
      NeoForgeIsForgeAt(s[1..]);
    }
  }

  /** The full-match test is subsumed by the search that follows it: every
      name it accepts has a digit, a dot and a digit in a row. */
  lemma {:induction false} ReleaseFullMatchHasDottedPair(s: string)
    ensures ReleaseFullMatch(s) ==> HasDottedPair(s)
  {
    if ReleaseFullMatch(s) {
      var d1 := DigitRun(s);
      var i := |d1| - 1;
      var r := s[|d1| + 1..];
      assert DigitRun(r) != [] && r[0] == s[|d1| + 1];
      assert IsDigit(s[i]) && s[i + 1] == '.' && IsDigit(s[i + 2]);
    }
  }

  /** A name made of digits and dots, starting with a digit and holding a
      digit, a dot and a digit in a row, is vanilla. */
  lemma {:induction false} DigitsAndDotsAreVanilla(s: string)
    requires s != [] && IsDigit(s[0]) && HasDottedPair(s)
    requires forall i :: 0 <= i < |s| ==> IsDigit(s[i]) || s[i] == '.'
    ensures ClassifyVersion(s) == Vanilla
  {
    var low := Lower(s);
    assert forall i :: 0 <= i < |low| ==> IsDigit(low[i]) || low[i] == '.';
    NoLetterMarkers(low);
    assert !SnapshotPrefix(low) by {
      var d := DigitRun(low);
      if |low| >= |d| + 2 {
        assert low[|d|] == '.';
      }
    }
    assert !AlphaBetaPrefix(low) by {
      assert IsDigit(low[0]);
    }
  }

  lemma {:induction false} NoLetterMarkers(s: string)
    requires forall i :: 0 <= i < |s| ==> IsDigit(s[i]) || s[i] == '.'
    ensures !Contains(s, "neoforge") && !Contains(s, "forge") && !Contains(s, "fabric") && !Contains(s, "optifine")
    ensures !Contains(s, "snapshot") && !Contains(s, "infdev") && !Contains(s, "c0.")
  {
    FirstCharAbsent(s, "neoforge");
    FirstCharAbsent(s, "forge");
    FirstCharAbsent(s, "fabric");
    FirstCharAbsent(s, "optifine");
    FirstCharAbsent(s, "snapshot");
    FirstCharAbsent(s, "infdev");
    FirstCharAbsent(s, "c0.");
  }

  /** A release name `a.b.c` is vanilla. */
  lemma {:induction false} ReleaseIsVanilla(a: nat, b: nat, c: nat)
    ensures ClassifyVersion(NatToString(a) + "." + NatToString(b) + "." + NatToString(c)) == Vanilla
  {
    var sa, sb, sc := NatToString(a), NatToString(b), NatToString(c);
    var s := sa + "." + sb + "." + sc;
    assert forall i :: 0 <= i < |s| ==> IsDigit(s[i]) || s[i] == '.' by {
      forall i | 0 <= i < |s|
        ensures IsDigit(s[i]) || s[i] == '.'
      {
        if i < |sa| {
          assert s[i] == sa[i];
        } else if i == |sa| {
        } else if i < |sa| + 1 + |sb| {
          assert s[i] == sb[i - |sa| - 1];
        } else if i == |sa| + 1 + |sb| {
        } else {
          assert s[i] == sc[i - |sa| - 2 - |sb|];
        }
      }
    }
    var i := |sa| - 1;
    assert IsDigit(s[i]) && s[i + 1] == '.' && s[i + 2] == sb[0];
    assert s[0] == sa[0];
    DigitsAndDotsAreVanilla(s);
  }

  // ---------------------------------------------------------------------
  // Display names.
  // ---------------------------------------------------------------------

  /** `f"{pretty_name} ({count})"`. */
  function Numbered(pretty: string, k: nat): string {
    pretty + " (" + NatToString(k) + ")"
  }

  lemma {:induction false} NumberedInjective(pretty: string, j: nat, k: nat)
    requires Numbered(pretty, j) == Numbered(pretty, k)
    ensures j == k
  {
    var sj, sk := Numbered(pretty, j), Numbered(pretty, k);
    assert sj[|pretty| + 2..|sj| - 1] == NatToString(j);
    assert sk[|pretty| + 2..|sk| - 1] == NatToString(k);
    NatToStringInjective(j, k);
  }

  lemma {:induction false} SubsetCardinality(a: set<string>, b: set<string>)
    requires a <= b
    ensures |a| <= |b|
  {
    assert b == a + (b - a);
    assert a * (b - a) == {};
  }

  /** The de-duplication loop: the pretty name when it is free, otherwise
      the pretty name numbered with the smallest number from 2 that is free. */
  method UniqueDisplayName(pretty: string, taken: set<string>) returns (display: string)
    ensures display !in taken
    ensures display == pretty <==> pretty !in taken
    ensures pretty in taken ==>
      exists k :: k >= 2 && display == Numbered(pretty, k) && forall j :: 2 <= j < k ==> Numbered(pretty, j) in taken
  {
    display := pretty;
    var count := 2;
    ghost var tried: set<string> := {};
    while display in taken
      invariant count >= 2
      invariant count == 2 ==> display == pretty && tried == {}
      invariant count > 2 ==> display == Numbered(pretty, count - 1) && pretty in taken
      invariant forall j :: 2 <= j < count - 1 ==> Numbered(pretty, j) in taken
      invariant tried <= taken && display !in tried
      invariant forall x :: x in tried ==> x == pretty || exists j :: 2 <= j < count - 1 && x == Numbered(pretty, j)
      invariant |tried| == count - 2
      decreases |taken| - |tried|
    {
      SubsetCardinality(tried + {display}, taken);
      tried := tried + {display};
      display := Numbered(pretty, count);
      count := count + 1;
      forall x | x in tried
        ensures x != display
      {
        if x != pretty {
          var j :| 2 <= j < count - 1 && x == Numbered(pretty, j);
          if x == display {
            NumberedInjective(pretty, j, count - 1);
          }
        }
      }
    }
    if pretty in taken {
      assert count > 2;
    }
  }

  /** What the de-duplication loop makes of `pretty` while the names in
      `taken` are in use: a free name, the pretty name itself exactly when it
      is free, and otherwise the first free numbered form from 2 on. */
  ghost predicate FreshDisplay(pretty: string, taken: set<string>, display: string) {
    && display !in taken
    && (display == pretty <==> pretty !in taken)
    && (pretty in taken ==>
          exists k :: k >= 2 && display == Numbered(pretty, k) && forall j :: 2 <= j < k ==> Numbered(pretty, j) in taken)
  }

  /** One row of the version dialog: category, display name, directory name. */
  datatype VersionRow = VersionRow(category: Category, display: string, directory: string)

  /** The display names of the rows. */
  function Displays(rows: seq<VersionRow>): set<string>
    decreases |rows|
  {
    if rows == [] then {} else Displays(rows[..|rows| - 1]) + {rows[|rows| - 1].display}
  }

  lemma {:induction false} InDisplays(rows: seq<VersionRow>, i: int)
    requires 0 <= i < |rows|
    ensures rows[i].display in Displays(rows)
    decreases |rows|
  {
    if i < |rows| - 1 {
      InDisplays(rows[..|rows| - 1], i);
    }
  }

  lemma {:induction false} DisplaysBound(rows: seq<VersionRow>)
    ensures |Displays(rows)| <= |rows|
    decreases |rows|
  {
    if rows != [] {
      DisplaysBound(rows[..|rows| - 1]);
    }
  }

  /** As many display names as rows: no two rows share one. */
  lemma {:induction false} DisplaysDistinct(rows: seq<VersionRow>)
    requires |Displays(rows)| == |rows|
    ensures forall i, j :: 0 <= i < j < |rows| ==> rows[i].display != rows[j].display
    decreases |rows|
  {
    if rows != [] {
      var init := rows[..|rows| - 1];
      var last := rows[|rows| - 1].display;
      DisplaysBound(init);
      assert last !in Displays(init);
      DisplaysDistinct(init);
      forall i, j | 0 <= i < j < |rows|
        ensures rows[i].display != rows[j].display
      {
        if j == |rows| - 1 {
          InDisplays(init, i);
        } else {
          assert rows[i] == init[i] && rows[j] == init[j];
        }
      }
    }
  }

  /** The loop over the sorted directory names: each gets its category and a
      display name of its own, and the mapping leads back to it. `pretty`
      holds the pretty name of each directory. */

  method ListVersions(names: seq<string>, pretty: seq<string>)
    returns (mapping: map<string, string>, rows: seq<VersionRow>)
    requires |pretty| == |names|
    ensures |rows| == |names| && |mapping| == |names|
    ensures forall i :: 0 <= i < |rows| ==> rows[i].directory == names[i] && rows[i].category == ClassifyVersion(names[i])
    ensures forall i :: 0 <= i < |rows| ==> rows[i].display in mapping && mapping[rows[i].display] == names[i]
    ensures forall i, j :: 0 <= i < j < |rows| ==> rows[i].display != rows[j].display
    ensures mapping.Keys == Displays(rows)
    ensures forall i :: 0 <= i < |rows| ==> FreshDisplay(pretty[i], Displays(rows[..i]), rows[i].display)
  {
    mapping := map[];
    rows := [];
    var n := 0;
    while n < |names|
      invariant 0 <= n <= |names|
      invariant |rows| == n && |mapping| == n
      invariant forall i :: 0 <= i < n ==> rows[i].directory == names[i] && rows[i].category == ClassifyVersion(names[i])
      invariant forall i :: 0 <= i < n ==> rows[i].display in mapping && mapping[rows[i].display] == names[i]
      invariant mapping.Keys == Displays(rows)
      invariant forall i :: 0 <= i < n ==> FreshDisplay(pretty[i], Displays(rows[..i]), rows[i].display)
    {
      var category := ClassifyVersion(names[n]);
      var display := UniqueDisplayName(pretty[n], mapping.Keys);
      ghost var oldRows, oldMapping := rows, mapping;
      mapping := mapping[display := names[n]];
      assert display !in oldMapping;
      assert |mapping| == |oldMapping| + 1;
      rows := rows + [VersionRow(category, display, names[n])];
      assert rows[..n] == oldRows;
      assert Displays(rows) == Displays(oldRows) + {display};
      assert FreshDisplay(pretty[n], Displays(rows[..n]), display);
      forall i | 0 <= i <= n
        ensures rows[i].directory == names[i] && rows[i].category == ClassifyVersion(names[i])
        ensures rows[i].display in mapping && mapping[rows[i].display] == names[i]
        ensures FreshDisplay(pretty[i], Displays(rows[..i]), rows[i].display)
      {
        if i < n {
          assert rows[i] == oldRows[i];
          assert rows[..i] == oldRows[..i];
          InDisplays(oldRows, i);
        }
      }
      n := n + 1;
    }
    DisplaysDistinct(rows);
  }
}
