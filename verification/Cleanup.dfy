/**
 Retention of cmd/hyperexport/cleanup.go: which exports a cleanup deletes.

 sort.Slice is not stable, so sorting is used only through what it promises: some
 permutation in modification-time order.
 */
module Cleanup {
  import opened Wrappers

  datatype ExportInfo = ExportInfo(path: string, size: nat, modTime: int, preserved: bool)

  datatype Config = Config(maxAge: int, maxCount: int, maxTotalSize: int, dryRun: bool)

  function TotalSize(es: seq<ExportInfo>): nat {
    if es == [] then 0 else es[0].size + TotalSize(es[1..])
  }

  function Unpreserved(es: seq<ExportInfo>): seq<ExportInfo> {
    if es == [] then []
    else if es[0].preserved then Unpreserved(es[1..])
    else [es[0]] + Unpreserved(es[1..])
  }

  ghost predicate OldestFirst(es: seq<ExportInfo>) {
    forall i, j :: 0 <= i < j < |es| ==> es[i].modTime <= es[j].modTime
  }

  ghost predicate DistinctPaths(es: seq<ExportInfo>) {
    forall i, j :: 0 <= i < j < |es| ==> es[i].path != es[j].path
  }

  ghost predicate DistinctTimes(es: seq<ExportInfo>) {
    forall i, j :: 0 <= i < j < |es| ==> es[i].modTime != es[j].modTime
  }

  predicate TooOld(e: ExportInfo, config: Config, now: int) { config.maxAge > 0 && now - e.modTime > config.maxAge }

  /** The retention policy: what may stay. */
  ghost predicate Meets(keep: seq<ExportInfo>, config: Config, now: int) {
    && (forall e :: e in keep ==> !TooOld(e, config, now))
    && (config.maxCount > 0 ==> |keep| <= config.maxCount)
    && (config.maxTotalSize > 0 ==> TotalSize(keep) <= config.maxTotalSize)
  }

  /** Deleting the k oldest is enough, and deleting fewer is not. */
  ghost predicate IsCut(order: seq<ExportInfo>, k: nat, config: Config, now: int) {
    && k <= |order|
    && Meets(order[k..], config, now)
    && forall j :: 0 <= j < k ==> !Meets(order[j..], config, now)
  }

  ghost predicate SortOf(order: seq<ExportInfo>, es: seq<ExportInfo>) {
    multiset(order) == multiset(es) && OldestFirst(order)
  }

  /**
   The deleted exports are, in order, the k oldest unpreserved ones for the least k that
   meets the policy.  Ties in modification time may be broken either way.
   */
  ghost predicate IsSelection(es: seq<ExportInfo>, toDelete: seq<ExportInfo>, config: Config, now: int) {
    exists order ::
      SortOf(order, Unpreserved(es)) && IsCut(order, |toDelete|, config, now) && toDelete == order[..|toDelete|]
  }

  // ---------------------------------------------------------------- facts about sequences of exports

  lemma {:induction false} UnpreservedElements(es: seq<ExportInfo>)
    ensures forall e :: e in Unpreserved(es) <==> e in es && !e.preserved
  {
    if es != [] {
      UnpreservedElements(es[1..]);
      assert es == [es[0]] + es[1..];
    }
  }

  lemma {:induction false} UnpreservedAppend(es: seq<ExportInfo>, e: ExportInfo)
    ensures Unpreserved(es + [e]) == if e.preserved then Unpreserved(es) else Unpreserved(es) + [e]
  {
    if es == [] {
      assert [e][1..] == [] && [] + [e] == [e];
    } else {
      UnpreservedAppend(es[1..], e);
      assert (es + [e])[1..] == es[1..] + [e];
    }
  }

  datatype Relation = NotLater | OtherPath | OtherTime

  predicate Holds(r: Relation, a: ExportInfo, b: ExportInfo) {
    match r
    case NotLater => a.modTime <= b.modTime
    case OtherPath => a.path != b.path
    case OtherTime => a.modTime != b.modTime
  }

  ghost predicate Pairwise(r: Relation, es: seq<ExportInfo>) {
    forall i, j :: 0 <= i < j < |es| ==> Holds(r, es[i], es[j])
  }

  /** Filtering keeps every relation between earlier and later exports. */
  lemma {:induction false} UnpreservedPairwise(es: seq<ExportInfo>, r: Relation)
    requires Pairwise(r, es)
    ensures Pairwise(r, Unpreserved(es))
  {
    hide Holds;
    if es != [] {
      var u, rest := Unpreserved(es), Unpreserved(es[1..]);
      UnpreservedPairwise(es[1..], r);
      UnpreservedElements(es[1..]);
      if !es[0].preserved {
        forall i, j | 0 <= i < j < |u| ensures Holds(r, u[i], u[j]) {
          assert u[j] == rest[j - 1] && u[j] in es[1..];
          assert i > 0 ==> u[i] == rest[i - 1];
        }
      }
    }
  }

  lemma PairwiseMeaning(es: seq<ExportInfo>)
    ensures Pairwise(NotLater, es) <==> OldestFirst(es)
    ensures Pairwise(OtherPath, es) <==> DistinctPaths(es)
    ensures Pairwise(OtherTime, es) <==> DistinctTimes(es)
  {
    if OldestFirst(es) {
      assert Pairwise(NotLater, es);
    }
    if DistinctPaths(es) {
      assert Pairwise(OtherPath, es);
    }
    if DistinctTimes(es) {
      assert Pairwise(OtherTime, es);
    }
  }

  lemma UnpreservedOrdered(es: seq<ExportInfo>)
    ensures OldestFirst(es) ==> OldestFirst(Unpreserved(es))
    ensures DistinctPaths(es) ==> DistinctPaths(Unpreserved(es))
    ensures DistinctTimes(es) ==> DistinctTimes(Unpreserved(es))
  {
    hide Pairwise, Unpreserved;
    PairwiseMeaning(es);
    PairwiseMeaning(Unpreserved(es));
    if OldestFirst(es) {
      UnpreservedPairwise(es, NotLater);
    }
    if DistinctPaths(es) {
      UnpreservedPairwise(es, OtherPath);
    }
    if DistinctTimes(es) {
      UnpreservedPairwise(es, OtherTime);
    }
  }

  lemma MultisetHead(a: seq<ExportInfo>)
    requires a != []
    ensures multiset(a) == multiset{a[0]} + multiset(a[1..])
  {
    assert a == [a[0]] + a[1..];
  }

  lemma MultisetRemove(b: seq<ExportInfo>, i: nat)
    requires i < |b|
    ensures multiset(b) == multiset{b[i]} + multiset(b[..i] + b[i + 1..])
  {
    assert b == b[..i] + ([b[i]] + b[i + 1..]);
  }

  lemma MultisetCancel(x: ExportInfo, a: multiset<ExportInfo>, b: multiset<ExportInfo>)
    requires multiset{x} + a == multiset{x} + b
    ensures a == b
  {
    assert a == (multiset{x} + a) - multiset{x};
    assert b == (multiset{x} + b) - multiset{x};
  }

  lemma {:induction false} TotalSizeAppend(a: seq<ExportInfo>, b: seq<ExportInfo>)
    ensures TotalSize(a + b) == TotalSize(a) + TotalSize(b)
  {
    if a == [] {
      assert a + b == b;
    } else {
      TotalSizeAppend(a[1..], b);
      assert (a + b)[1..] == a[1..] + b;
    }
  }

  lemma TotalSizeLast(a: seq<ExportInfo>, e: ExportInfo)
    ensures TotalSize(a + [e]) == TotalSize(a) + e.size
  {
    TotalSizeAppend(a, [e]);
    assert [e][1..] == [];
  }

  lemma TotalSizeRemove(b: seq<ExportInfo>, i: nat)
    requires i < |b|
    ensures TotalSize(b) == b[i].size + TotalSize(b[..i] + b[i + 1..])
  {
    TotalSizeAppend(b[..i], b[i + 1..]);
    TotalSizeAppend(b[..i], b[i..]);
    assert b == b[..i] + b[i..] && b[i..][1..] == b[i + 1..];
  }

  /** The total size does not depend on the order. */
  lemma {:induction false} TotalSizePermutation(a: seq<ExportInfo>, b: seq<ExportInfo>)
    requires multiset(a) == multiset(b)
    ensures TotalSize(a) == TotalSize(b) && |a| == |b|
    decreases |a|
  {
    assert |multiset(a)| == |multiset(b)|;
    if a != [] {
      assert a[0] in multiset(b);
      var i :| 0 <= i < |b| && b[i] == a[0];
      var c := b[..i] + b[i + 1..];
      MultisetHead(a);
      MultisetRemove(b, i);
      MultisetCancel(a[0], multiset(a[1..]), multiset(c));
      TotalSizePermutation(a[1..], c);
      TotalSizeRemove(b, i);
    }
  }

  lemma MeetsPermutation(a: seq<ExportInfo>, b: seq<ExportInfo>, config: Config, now: int)
    requires multiset(a) == multiset(b) && Meets(a, config, now)
    ensures Meets(b, config, now)
  {
    TotalSizePermutation(a, b);
    forall e | e in b ensures !TooOld(e, config, now) {
      assert e in multiset(a);
    }
  }

  lemma {:induction false} SortUnique(a: seq<ExportInfo>, b: seq<ExportInfo>)
    requires SortOf(a, b) && OldestFirst(b)
    requires DistinctTimes(b)
    ensures a == b
    decreases |a|
  {
    assert |multiset(a)| == |multiset(b)|;
    if a != [] {
      assert a[0] in multiset(b) && b[0] in multiset(a);
      var i :| 0 <= i < |b| && b[i] == a[0];
      var j :| 0 <= j < |a| && a[j] == b[0];
      assert a[0].modTime <= a[j].modTime;
      assert a[0] == b[0];
      MultisetHead(a);
      MultisetHead(b);
      MultisetCancel(a[0], multiset(a[1..]), multiset(b[1..]));
      SortUnique(a[1..], b[1..]);
    }
  }

  // ---------------------------------------------------------------- marking and sorting

  method InsertByTime(r: seq<ExportInfo>, e: ExportInfo) returns (q: seq<ExportInfo>)
    requires OldestFirst(r)
    ensures OldestFirst(q) && multiset(q) == multiset(r) + multiset{e}
  {
    hide OldestFirst;
    var k := 0;
    while k < |r| && r[k].modTime <= e.modTime
      invariant 0 <= k <= |r|
      invariant forall j :: 0 <= j < k ==> r[j].modTime <= e.modTime
    {
      k := k + 1;
    }
    q := r[..k] + ([e] + r[k..]);
    InsertAt(r, k, e);
    assert r == r[..k] + r[k..];
  }

  lemma InsertAt(r: seq<ExportInfo>, k: nat, e: ExportInfo)
    requires OldestFirst(r) && k <= |r|
    requires forall j :: 0 <= j < k ==> r[j].modTime <= e.modTime
    requires k < |r| ==> e.modTime < r[k].modTime
    ensures OldestFirst(r[..k] + ([e] + r[k..]))
  {
    var q := r[..k] + ([e] + r[k..]);
    forall i, j | 0 <= i < j < |q| ensures q[i].modTime <= q[j].modTime {
      assert q[i] == if i < k then r[i] else if i == k then e else r[i - 1];
      assert q[j] == if j < k then r[j] else if j == k then e else r[j - 1];
    }
  }

  method SortOldestFirst(es: seq<ExportInfo>) returns (r: seq<ExportInfo>)
    ensures SortOf(r, es)
  {
    r := [];
    for i := 0 to |es|
      invariant SortOf(r, es[..i])
    {
      assert es[..i + 1] == es[..i] + [es[i]];
      r := InsertByTime(r, es[i]);
    }
    assert es[..|es|] == es;
  }

  /** Result of trying the patterns on one path: the first match or malformed pattern decides. */
  function Protects(patterns: seq<string>, path: string, matches: (string, string) -> Option<bool>): Option<bool> {
    if patterns == [] then Some(false)
    else if matches(patterns[0], path) == Some(false) then Protects(patterns[1..], path, matches)
    else matches(patterns[0], path)
  }

  /** The patterns are tried in order, and the first that is malformed or matches decides. */
  lemma {:induction false} ProtectsMeans(patterns: seq<string>, path: string, matches: (string, string) -> Option<bool>)
    ensures var r := Protects(patterns, path, matches);
      && (r == Some(false) <==> forall p :: p in patterns ==> matches(p, path) == Some(false))
      && (r != Some(false) ==>
            exists j :: 0 <= j < |patterns| && DecidesAt(patterns, path, matches, j) && r == matches(patterns[j], path))
  {
    if patterns != [] {
      var rest := patterns[1..];
      ProtectsMeans(rest, path, matches);
      assert forall p :: p in patterns <==> p == patterns[0] || p in rest;
      if matches(patterns[0], path) != Some(false) {
        assert DecidesAt(patterns, path, matches, 0);
      } else if Protects(rest, path, matches) != Some(false) {
        var j :| 0 <= j < |rest| && DecidesAt(rest, path, matches, j)
                 && Protects(rest, path, matches) == matches(rest[j], path);
        assert forall i :: 1 <= i < j + 1 ==> patterns[i] == rest[i - 1];
        assert DecidesAt(patterns, path, matches, j + 1) && patterns[j + 1] == rest[j];
      }
    }
  }

  /** Pattern j is malformed or matches, and all before it were tried without a match. */
  ghost predicate DecidesAt(patterns: seq<string>, path: string, matches: (string, string) -> Option<bool>, j: nat)
    requires j < |patterns|
  {
    matches(patterns[j], path) != Some(false) && forall i :: 0 <= i < j ==> matches(patterns[i], path) == Some(false)
  }

  lemma DecidesOnce(patterns: seq<string>, path: string, matches: (string, string) -> Option<bool>, j: nat)
    requires j < |patterns| && DecidesAt(patterns, path, matches, j)
    ensures Protects(patterns, path, matches) == matches(patterns[j], path)
  {
    ProtectsMeans(patterns, path, matches);
    assert patterns[j] in patterns;
    var i :| 0 <= i < |patterns| && DecidesAt(patterns, path, matches, i)
             && Protects(patterns, path, matches) == matches(patterns[i], path);
    assert i == j;
  }

  /** What protection means, pattern by pattern. */
  lemma ProtectedIff(patterns: seq<string>, path: string, matches: (string, string) -> Option<bool>)
    ensures Protects(patterns, path, matches) == Some(true) <==>
      exists j :: 0 <= j < |patterns| && matches(patterns[j], path) == Some(true)
                  && forall i :: 0 <= i < j ==> matches(patterns[i], path) == Some(false)
    ensures Protects(patterns, path, matches) == None <==>
      exists j :: 0 <= j < |patterns| && matches(patterns[j], path) == None
                  && forall i :: 0 <= i < j ==> matches(patterns[i], path) == Some(false)
    ensures Protects(patterns, path, matches) == Some(false) <==>
      forall p :: p in patterns ==> matches(p, path) == Some(false)
  {
    ProtectsMeans(patterns, path, matches);
    forall j: nat | j < |patterns| && DecidesAt(patterns, path, matches, j)
      ensures Protects(patterns, path, matches) == matches(patterns[j], path)
    {
      DecidesOnce(patterns, path, matches, j);
    }
    hide Protects;
    if j :| 0 <= j < |patterns| && matches(patterns[j], path) != Some(false)
            && forall i :: 0 <= i < j ==> matches(patterns[i], path) == Some(false) {
      assert DecidesAt(patterns, path, matches, j);
    }
  }

  /** Exports before the first malformed match are marked as they should be, the rest not at all. */
  ghost predicate MarkedUpTo(es: seq<ExportInfo>, marked: seq<ExportInfo>, stop: nat, patterns: seq<string>,
                             matches: (string, string) -> Option<bool>)
  {
    && |marked| == |es| && stop <= |es|
    && (forall i :: 0 <= i < stop ==>
          var p := Protects(patterns, es[i].path, matches);
          p.Some? && marked[i] == es[i].(preserved := es[i].preserved || p.value))
    && (forall i :: stop <= i < |es| ==> marked[i] == es[i])
  }

  method MarkPreserved(es: seq<ExportInfo>, patterns: seq<string>, matches: (string, string) -> Option<bool>)
    returns (marked: seq<ExportInfo>, err: bool, stop: nat)
    ensures MarkedUpTo(es, marked, stop, patterns, matches)
    ensures err <==> stop < |es|
    ensures err ==> Protects(patterns, es[stop].path, matches) == None
  {
    marked := es;
    stop := 0;
    while stop < |es|
      invariant MarkedUpTo(es, marked, stop, patterns, matches)
    {
      var j := 0;
      var path := es[stop].path;
      while j < |patterns|
        invariant 0 <= j <= |patterns|
        invariant Protects(patterns, path, matches) == Protects(patterns[j..], path, matches)
        invariant MarkedUpTo(es, marked, stop, patterns, matches)
      {
        var matched := matches(patterns[j], path);
        if matched == None {
          return marked, true, stop;
        }
        if matched.value {
          marked := marked[stop := marked[stop].(preserved := true)];
          break;
        }
        assert patterns[j..][1..] == patterns[j + 1..];
        j := j + 1;
      }
      stop := stop + 1;
    }
    err := false;
  }

  // ---------------------------------------------------------------- selection

  predicate Marked(e: ExportInfo, toDelete: seq<ExportInfo>) {
    exists i :: 0 <= i < |toDelete| && toDelete[i].path == e.path
  }

  function Unmarked(es: seq<ExportInfo>, toDelete: seq<ExportInfo>): seq<ExportInfo> {
    if es == [] then []
    else if es[0].preserved || Marked(es[0], toDelete) then Unmarked(es[1..], toDelete)
    else [es[0]] + Unmarked(es[1..], toDelete)
  }

  lemma {:induction false} UnmarkedAppend(es: seq<ExportInfo>, e: ExportInfo, del: seq<ExportInfo>)
    ensures Unmarked(es + [e], del) ==
      if e.preserved || Marked(e, del) then Unmarked(es, del) else Unmarked(es, del) + [e]
  {
    if es == [] {
      assert [e][1..] == [] && [] + [e] == [e];
    } else {
      UnmarkedAppend(es[1..], e, del);
      assert (es + [e])[1..] == es[1..] + [e];
    }
  }

  lemma {:induction false} UnmarkedIgnores(es: seq<ExportInfo>, e: ExportInfo, del: seq<ExportInfo>)
    requires forall x :: x in es ==> x.path != e.path
    ensures Unmarked(es, [e] + del) == Unmarked(es, del)
  {
    if es != [] {
      UnmarkedIgnores(es[1..], e, del);
      var all := [e] + del;
      assert forall i :: 0 <= i < |del| ==> del[i] == all[i + 1];
      assert es[0] in es;
      assert Marked(es[0], all) <==> Marked(es[0], del);
    }
  }

  /** With distinct paths, what is not marked after the d oldest were is exactly the rest. */
  lemma {:induction false} UnmarkedIsRest(es: seq<ExportInfo>, d: nat)
    requires DistinctPaths(es) && d <= |Unpreserved(es)|
    ensures Unmarked(es, Unpreserved(es)[..d]) == Unpreserved(es)[d..]
    decreases |es|
  {
    if es != [] {
      var u, rest := Unpreserved(es), Unpreserved(es[1..]);
      if es[0].preserved {
        UnmarkedIsRest(es[1..], d);
      } else if d == 0 {
        UnmarkedIsRest(es[1..], 0);
        assert u[..0] == rest[..0];
      } else {
        UnmarkedIsRest(es[1..], d - 1);
        assert u[..d] == [es[0]] + rest[..d - 1];
        assert u[..d][0] == es[0];
        assert forall x :: x in es[1..] ==> x.path != es[0].path;
        UnmarkedIgnores(es[1..], es[0], rest[..d - 1]);
      }
    }
  }

  /** The loop that collects what is neither preserved nor already marked. */
  method CollectUnmarked(es: seq<ExportInfo>, toDelete: seq<ExportInfo>) returns (r: seq<ExportInfo>)
    ensures r == Unmarked(es, toDelete)
  {
    r := [];
    for i := 0 to |es|
      invariant r == Unmarked(es[..i], toDelete)
    {
      var alreadyMarked := false;
      if !es[i].preserved {
        for j := 0 to |toDelete|
          invariant alreadyMarked <==> exists m :: 0 <= m < j && toDelete[m].path == es[i].path
        {
          if toDelete[j].path == es[i].path {
            alreadyMarked := true;
            break;
          }
        }
        if !alreadyMarked {
          r := r + [es[i]];
        }
      }
      assert es[..i + 1] == es[..i] + [es[i]];
      UnmarkedAppend(es[..i], es[i], toDelete);
    }
    assert es[..|es|] == es;
  }

  lemma NothingListed()
    ensures Unpreserved([]) == [] && TotalSize([]) == 0
  {
  }

  /** In an oldest-first listing nothing kept so far precedes an over-age export. */
  lemma KeptNothing(es: seq<ExportInfo>, i: nat, kept: seq<ExportInfo>, config: Config, now: int)
    requires OldestFirst(es) && i < |es| && TooOld(es[i], config, now)
    requires kept != [] ==> kept[0] in es[..i] && !TooOld(kept[0], config, now)
    ensures kept == []
  {
    forall e | e in es[..i]
      ensures TooOld(e, config, now)
    {
      var j :| 0 <= j < i && es[..i][j] == e;
      assert es[j].modTime <= es[i].modTime;
    }
  }

  /** First pass: the over-age exports are the d oldest, the rest are counted. */
  method MarkByAge(es: seq<ExportInfo>, config: Config, now: int) returns (toDelete: seq<ExportInfo>, totalSize: nat)
    requires OldestFirst(es) && DistinctPaths(es)
    ensures var u, d := Unpreserved(es), |toDelete|;
      && d <= |u| && toDelete == u[..d] && totalSize == TotalSize(u[d..])
      && (forall i :: 0 <= i < d ==> TooOld(u[i], config, now))
      && (forall i :: d <= i < |u| ==> !TooOld(u[i], config, now))
  {
    hide Unpreserved, TotalSize, OldestFirst, DistinctPaths;
    NothingListed();
    toDelete, totalSize := [], 0;
    ghost var kept := [];
    for i := 0 to |es|
      invariant Unpreserved(es[..i]) == toDelete + kept
      invariant forall e :: e in toDelete ==> TooOld(e, config, now)
      invariant forall e :: e in kept ==> !TooOld(e, config, now)
      invariant forall e :: e in kept ==> e in es[..i]
      invariant totalSize == TotalSize(kept)
    {
      assert es[..i + 1] == es[..i] + [es[i]];
      UnpreservedAppend(es[..i], es[i]);
      if !es[i].preserved {
        if config.maxAge > 0 && now - es[i].modTime > config.maxAge {
          KeptNothing(es, i, kept, config, now);
          assert toDelete + kept == toDelete;
          toDelete := toDelete + [es[i]];
        } else {
          TotalSizeLast(kept, es[i]);
          assert toDelete + kept + [es[i]] == toDelete + (kept + [es[i]]);
          totalSize := totalSize + es[i].size;
          kept := kept + [es[i]];
        }
      }
    }
    assert es[..|es|] == es;
    assert Unpreserved(es)[|toDelete|..] == kept;
  }

  lemma OneLess(es: seq<ExportInfo>, i: nat)
    requires i < |es|
    ensures TotalSize(es[i..]) == es[i].size + TotalSize(es[i + 1..])
    ensures es[..i + 1] == es[..i] + [es[i]]
  {
    assert es[i..][1..] == es[i + 1..];
  }

  /** Second pass: trim the survivors to the count limit, oldest first. */
  method TrimToCount(es: seq<ExportInfo>, config: Config, marked: seq<ExportInfo>, size: nat)
    returns (toDelete: seq<ExportInfo>, totalSize: nat)
    requires DistinctPaths(es) && |marked| <= |Unpreserved(es)| && marked == Unpreserved(es)[..|marked|]
    requires size == TotalSize(Unpreserved(es)[|marked|..])
    ensures var u, d := Unpreserved(es), |toDelete|;
      && |marked| <= d <= |u| && toDelete == u[..d] && totalSize == TotalSize(u[d..])
      && (config.maxCount > 0 ==> |u| - d <= config.maxCount)
      && (d > |marked| ==> config.maxCount > 0 && |u| - d == config.maxCount)
  {
    hide Unpreserved, Unmarked, TotalSize;
    toDelete, totalSize := marked, size;
    if config.maxCount > 0 {
      var remaining := CollectUnmarked(es, toDelete);
      UnmarkedIsRest(es, |marked|);
      if |remaining| > config.maxCount {
        var excess := |remaining| - config.maxCount;
        for i := 0 to excess
          invariant toDelete == marked + remaining[..i]
          invariant totalSize == TotalSize(remaining[i..])
        {
          OneLess(remaining, i);
          toDelete := toDelete + [remaining[i]];
          totalSize := totalSize - remaining[i].size;
        }
        assert marked + remaining == Unpreserved(es);
        assert remaining[excess..] == Unpreserved(es)[|toDelete|..];
      }
    }
  }

  /** Every suffix that starts before k is over the size limit. */
  ghost predicate OverBefore(rest: seq<ExportInfo>, k: nat, limit: int) {
    forall j :: 0 <= j < k <= |rest| ==> TotalSize(rest[j..]) > limit
  }

  /** Third pass: trim to the total size, oldest first, by a fresh sort of the survivors. */
  method TrimToSize(es: seq<ExportInfo>, config: Config, marked: seq<ExportInfo>, size: nat)
    returns (toDelete: seq<ExportInfo>, totalSize: nat, ghost rest: seq<ExportInfo>)
    requires DistinctPaths(es) && |marked| <= |Unpreserved(es)| && marked == Unpreserved(es)[..|marked|]
    requires size == TotalSize(Unpreserved(es)[|marked|..]) && OldestFirst(Unpreserved(es))
    ensures SortOf(rest, Unpreserved(es)[|marked|..])
    ensures var k := |toDelete| - |marked|;
      && 0 <= k <= |rest| && toDelete == marked + rest[..k] && totalSize == TotalSize(rest[k..])
      && (config.maxTotalSize > 0 ==> totalSize <= config.maxTotalSize)
      && (k > 0 ==> config.maxTotalSize > 0) && OverBefore(rest, k, config.maxTotalSize)
  {
    hide Unpreserved, Unmarked, TotalSize;
    toDelete, totalSize := marked, size;
    rest := Unpreserved(es)[|marked|..];
    if config.maxTotalSize > 0 && totalSize > config.maxTotalSize {
      var notMarked := CollectUnmarked(es, toDelete);
      UnmarkedIsRest(es, |marked|);
      notMarked := SortOldestFirst(notMarked);
      TotalSizePermutation(notMarked, rest);
      rest := notMarked;
      var i := 0;
      while i < |notMarked| && totalSize > config.maxTotalSize
        invariant 0 <= i <= |notMarked|
        invariant toDelete == marked + rest[..i]
        invariant totalSize == TotalSize(rest[i..])
        invariant OverBefore(rest, i, config.maxTotalSize)
      {
        OneLess(rest, i);
        toDelete := toDelete + [notMarked[i]];
        totalSize := totalSize - notMarked[i].size;
        i := i + 1;
      }
      NothingListed();
      assert rest[|rest|..] == [];
    }
  }

  /** A prefix in order and a sort of what follows it make a sort of the whole. */
  lemma SortBehindPrefix(u: seq<ExportInfo>, d: nat, rest: seq<ExportInfo>)
    requires OldestFirst(u) && d <= |u| && SortOf(rest, u[d..])
    ensures SortOf(u[..d] + rest, u)
  {
    var order := u[..d] + rest;
    assert u == u[..d] + u[d..];
    forall i, j | 0 <= i < j < |order|
      ensures order[i].modTime <= order[j].modTime
    {
      if i < d <= j {
        assert rest[j - d] in multiset(u[d..]);
      }
    }
  }

  lemma CutMeets(u: seq<ExportInfo>, d1: nat, d2: nat, rest: seq<ExportInfo>, k: nat, config: Config, now: int)
    requires d1 <= d2 <= |u| && multiset(rest) == multiset(u[d2..]) && k <= |rest|
    requires forall i :: d1 <= i < |u| ==> !TooOld(u[i], config, now)
    requires config.maxCount > 0 ==> |u| - d2 <= config.maxCount
    requires config.maxTotalSize > 0 ==> TotalSize(rest[k..]) <= config.maxTotalSize
    ensures |rest| == |u| - d2 && Meets(rest[k..], config, now)
  {
    hide TooOld, TotalSize;
    assert |multiset(rest)| == |multiset(u[d2..])|;
    forall e | e in rest[k..] ensures !TooOld(e, config, now) {
      assert e in rest && e in multiset(u[d2..]);
    }
  }

  /** Three passes, each minimal for its own limit, are minimal for all of them together. */
  lemma CutFromPasses(u: seq<ExportInfo>, d1: nat, d2: nat, rest: seq<ExportInfo>, k: nat, config: Config, now: int)
    requires d1 <= d2 <= |u| && SortOf(rest, u[d2..]) && k <= |rest|
    requires forall i :: 0 <= i < d1 ==> TooOld(u[i], config, now)
    requires forall i :: d1 <= i < |u| ==> !TooOld(u[i], config, now)
    requires config.maxCount > 0 ==> |u| - d2 <= config.maxCount
    requires d2 > d1 ==> config.maxCount > 0 && |u| - d2 == config.maxCount
    requires config.maxTotalSize > 0 ==> TotalSize(rest[k..]) <= config.maxTotalSize
    requires (k > 0 ==> config.maxTotalSize > 0) && OverBefore(rest, k, config.maxTotalSize)
    ensures IsCut(u[..d2] + rest, d2 + k, config, now)
  {
    CutMeets(u, d1, d2, rest, k, config, now);
    hide TooOld, TotalSize, SortOf;
    var order := u[..d2] + rest;
    assert order[d2 + k..] == rest[k..];
    forall j | 0 <= j < d2 + k ensures !Meets(order[j..], config, now) {
      if j < d1 {
        assert order[j..][0] == u[j];
      } else if j >= d2 {
        assert order[j..] == rest[j - d2..];
      }
    }
  }

  /**
   Retention equals its specification, for exports listed oldest first with distinct paths;
   and the running total is the size of the unpreserved survivors.
   */
  method SelectForDeletion(es: seq<ExportInfo>, config: Config, now: int)
    returns (toDelete: seq<ExportInfo>, totalSize: nat)
    requires OldestFirst(es) && DistinctPaths(es)
    ensures IsSelection(es, toDelete, config, now)
    ensures totalSize == TotalSize(Unpreserved(es)) - TotalSize(toDelete)
  {
    hide Unpreserved, TotalSize, IsCut, OverBefore, SortOf, TooOld, DistinctPaths, OldestFirst;
    ghost var u := Unpreserved(es);
    UnpreservedOrdered(es);
    toDelete, totalSize := MarkByAge(es, config, now);
    ghost var d1 := |toDelete|;
    toDelete, totalSize := TrimToCount(es, config, toDelete, totalSize);
    ghost var d2 := |toDelete|;
    ghost var rest;
    toDelete, totalSize, rest := TrimToSize(es, config, toDelete, totalSize);
    ghost var order := u[..d2] + rest;
    SortBehindPrefix(u, d2, rest);
    CutFromPasses(u, d1, d2, rest, |toDelete| - d2, config, now);
    assert toDelete == order[..|toDelete|];
    assert order[|toDelete|..] == rest[|toDelete| - d2..];
    SurvivorsSize(u, order, |toDelete|);
  }

  lemma SurvivorsSize(u: seq<ExportInfo>, order: seq<ExportInfo>, k: nat)
    requires SortOf(order, u) && k <= |order|
    ensures TotalSize(order[k..]) == TotalSize(u) - TotalSize(order[..k])
  {
    hide TotalSize, OldestFirst;
    TotalSizePermutation(order, u);
    TotalSizeAppend(order[..k], order[k..]);
    assert order == order[..k] + order[k..];
  }

  /**
   With distinct modification times there are no ties: the survivors are the longest suffix
   of the unpreserved listing that meets the policy.
   */
  lemma SelectionWithoutTies(es: seq<ExportInfo>, toDelete: seq<ExportInfo>, config: Config, now: int)
    requires OldestFirst(es) && DistinctTimes(es) && IsSelection(es, toDelete, config, now)
    ensures IsCut(Unpreserved(es), |toDelete|, config, now) && toDelete == Unpreserved(es)[..|toDelete|]
  {
    UnpreservedOrdered(es);
    var k := |toDelete|;
    var order :| SortOf(order, Unpreserved(es)) && IsCut(order, k, config, now) && toDelete == order[..k];
    hide Unpreserved, IsCut;
    SortUnique(order, Unpreserved(es));
  }

  /** No preserved export is ever selected, and no path twice. */
  lemma SelectionSafe(es: seq<ExportInfo>, toDelete: seq<ExportInfo>, config: Config, now: int)
    requires DistinctPaths(es) && IsSelection(es, toDelete, config, now)
    ensures forall e :: e in toDelete ==> e in es && !e.preserved
    ensures DistinctPaths(toDelete)
  {
    var k := |toDelete|;
    var order :| SortOf(order, Unpreserved(es)) && IsCut(order, k, config, now) && toDelete == order[..k];
    UnpreservedElements(es);
    UnpreservedOrdered(es);
    hide Unpreserved, IsCut;
    forall e | e in toDelete ensures e in es && !e.preserved {
      assert e in order && e in multiset(Unpreserved(es));
    }
    DistinctPathsPermutation(Unpreserved(es), order);
  }

  lemma {:induction false} DistinctPathsPermutation(a: seq<ExportInfo>, b: seq<ExportInfo>)
    requires DistinctPaths(a) && multiset(a) == multiset(b)
    ensures DistinctPaths(b)
  {
    forall i, j | 0 <= i < j < |b| ensures b[i].path != b[j].path {
      assert b[i] in multiset(a) && b[j] in multiset(a);
      var m :| 0 <= m < |a| && a[m] == b[i];
      var n :| 0 <= n < |a| && a[n] == b[j];
      if m == n {
        TwiceInMultiset(b, i, j);
        OnceInMultiset(a, m);
      }
    }
  }

  lemma TwiceInMultiset(b: seq<ExportInfo>, i: nat, j: nat)
    requires i < j < |b| && b[i] == b[j]
    ensures multiset(b)[b[i]] >= 2
  {
    assert b == b[..i] + ([b[i]] + (b[i + 1..j] + ([b[j]] + b[j + 1..])));
  }

  lemma OnceInMultiset(a: seq<ExportInfo>, m: nat)
    requires DistinctPaths(a) && m < |a|
    ensures multiset(a)[a[m]] == 1
  {
    assert a == a[..m] + ([a[m]] + a[m + 1..]);
    assert a[m] !in a[..m] && a[m] !in a[m + 1..];
  }

  /** An export whose name a pattern protects is not deleted, if marking got as far as it. */
  lemma ProtectedSurvive(found: seq<ExportInfo>, marked: seq<ExportInfo>, stop: nat, i: nat, patterns: seq<string>,
                         matches: (string, string) -> Option<bool>, listing: seq<ExportInfo>,
                         toDelete: seq<ExportInfo>, config: Config, now: int)
    requires DistinctPaths(found) && MarkedUpTo(found, marked, stop, patterns, matches)
    requires i < stop && Protects(patterns, found[i].path, matches) == Some(true)
    requires multiset(listing) == multiset(marked) && DistinctPaths(listing)
    requires IsSelection(listing, toDelete, config, now)
    ensures forall e :: e in toDelete ==> e.path != found[i].path
  {
    SelectionSafe(listing, toDelete, config, now);
    hide IsSelection;
    forall e | e in toDelete ensures e.path != found[i].path {
      assert e in multiset(marked);
      var j :| 0 <= j < |marked| && marked[j] == e;
      assert marked[j].path == found[j].path;
    }
  }

  /** Nothing is deleted exactly when all that is unpreserved meets the policy as it is. */
  lemma NothingSelectedIff(es: seq<ExportInfo>, toDelete: seq<ExportInfo>, config: Config, now: int)
    requires IsSelection(es, toDelete, config, now)
    ensures toDelete == [] <==> Meets(Unpreserved(es), config, now)
  {
    var k := |toDelete|;
    var order :| SortOf(order, Unpreserved(es)) && IsCut(order, k, config, now) && toDelete == order[..k];
    hide Unpreserved, Meets, OldestFirst;
    assert order[0..] == order;
    if Meets(Unpreserved(es), config, now) {
      MeetsPermutation(Unpreserved(es), order, config, now);
    }
    if Meets(order, config, now) {
      MeetsPermutation(order, Unpreserved(es), config, now);
    }
  }

  /** Whatever is unpreserved in the listing and over age is deleted. */
  lemma OverAgeSelected(listing: seq<ExportInfo>, e: ExportInfo, toDelete: seq<ExportInfo>, config: Config, now: int)
    requires IsSelection(listing, toDelete, config, now)
    requires e in listing && !e.preserved && TooOld(e, config, now)
    ensures e in toDelete
  {
    var k := |toDelete|;
    var order :| SortOf(order, Unpreserved(listing)) && IsCut(order, k, config, now) && toDelete == order[..k];
    UnpreservedElements(listing);
    hide Unpreserved, TooOld, TotalSize;
    assert e in multiset(order);
    var keep := order[k..];
    assert order == toDelete + keep;
  }

  /** A pattern protects export i, and no name before it runs into a malformed pattern. */
  ghost predicate Reached(found: seq<ExportInfo>, i: nat, patterns: seq<string>,
                          matches: (string, string) -> Option<bool>)
    requires i < |found|
  {
    && Protects(patterns, found[i].path, matches) == Some(true)
    && forall j :: 0 <= j < i ==> Protects(patterns, found[j].path, matches) != None
  }

  lemma ReachedIffMarked(found: seq<ExportInfo>, marked: seq<ExportInfo>, stop: nat, i: nat, patterns: seq<string>,
                         matches: (string, string) -> Option<bool>)
    requires MarkedUpTo(found, marked, stop, patterns, matches) && i < |found|
    requires stop < |found| ==> Protects(patterns, found[stop].path, matches) == None
    ensures Reached(found, i, patterns, matches) <==>
      i < stop && Protects(patterns, found[i].path, matches) == Some(true)
  {
    hide Protects;
  }

  /**
   Protection depends on the order of the directory: an over-age export survives exactly
   when a pattern protects it and no name before it runs into a malformed pattern.
   */
  lemma OverAgeDeletedIff(found: seq<ExportInfo>, i: nat, patterns: seq<string>,
                          matches: (string, string) -> Option<bool>, listing: seq<ExportInfo>,
                          toDelete: seq<ExportInfo>, config: Config, now: int)
    requires DistinctPaths(found) && IsListing(listing, found, patterns, matches)
    requires i < |found| && !found[i].preserved && TooOld(found[i], config, now)
    requires IsSelection(listing, toDelete, config, now)
    ensures Marked(found[i], toDelete) <==> !Reached(found, i, patterns, matches)
  {
    var marked, stop: nat :|
      && MarkedUpTo(found, marked, stop, patterns, matches) && multiset(listing) == multiset(marked)
      && (stop < |found| ==> Protects(patterns, found[stop].path, matches) == None);
    ReachedIffMarked(found, marked, stop, i, patterns, matches);
    hide IsSelection, Reached;
    if Reached(found, i, patterns, matches) {
      ProtectedSurvive(found, marked, stop, i, patterns, matches, listing, toDelete, config, now);
    } else {
      assert marked[i] == found[i] && marked[i] in multiset(listing);
      OverAgeSelected(listing, found[i], toDelete, config, now);
    }
  }

  /** Two over-age exports; a pattern keeps the second, and a malformed pattern follows it. */
  function TwoExports(): seq<ExportInfo> {
    [ExportInfo("export-1", 1, 0, false), ExportInfo("export-2", 1, 1, false)]
  }

  function KeepOrMalformed(pattern: string, path: string): Option<bool> {
    if pattern == "[" then None else Some(pattern == "export-2*" && path == "export-2")
  }

  lemma SecondProtected()
    ensures var patterns, matches := ["export-2*", "["], KeepOrMalformed;
      && Protects(patterns, "export-1", matches) == None && Protects(patterns, "export-2", matches) == Some(true)
  {
    assert ["export-2*", "["][1..] == ["["];
  }

  /** The first export stops the marking, and the protected second one is deleted. */
  lemma ProtectedExportDeleted(listing: seq<ExportInfo>, toDelete: seq<ExportInfo>, config: Config)
    requires config.maxAge == 10
    requires IsListing(listing, TwoExports(), ["export-2*", "["], KeepOrMalformed)
    requires IsSelection(listing, toDelete, config, 100)
    ensures Protects(["export-2*", "["], TwoExports()[1].path, KeepOrMalformed) == Some(true)
    ensures Marked(TwoExports()[1], toDelete)
  {
    var found := TwoExports();
    SecondProtected();
    assert found[0].path == "export-1" && found[1].path == "export-2";
    hide IsSelection, IsListing, Protects;
    OverAgeDeletedIff(found, 1, ["export-2*", "["], KeepOrMalformed, listing, toDelete, config, 100);
  }

  /** A second cleanup at the same instant, over the survivors in any order, selects nothing. */
  lemma SecondPassSelectsNothing(es: seq<ExportInfo>, toDelete: seq<ExportInfo>, left: seq<ExportInfo>,
                                 again: seq<ExportInfo>, config: Config, now: int)
    requires IsSelection(es, toDelete, config, now) && IsSelection(left, again, config, now)
    requires multiset(Unpreserved(left)) + multiset(toDelete) == multiset(Unpreserved(es))
    ensures again == []
  {
    hide Unpreserved, Meets, OldestFirst;
    var k := |toDelete|;
    var order :| SortOf(order, Unpreserved(es)) && IsCut(order, k, config, now) && toDelete == order[..k];
    var order' :|
      && SortOf(order', Unpreserved(left)) && IsCut(order', |again|, config, now) && again == order'[..|again|];
    assert order == order[..k] + order[k..];
    MultisetCancelAll(multiset(toDelete), multiset(order[k..]), multiset(order'));
    MeetsPermutation(order[k..], order', config, now);
    assert order'[0..] == order';
  }

  lemma MultisetCancelAll(a: multiset<ExportInfo>, b: multiset<ExportInfo>, c: multiset<ExportInfo>)
    requires a + b == c + a
    ensures b == c
  {
    assert b == (a + b) - a;
    assert c == (c + a) - a;
  }

  // ---------------------------------------------------------------- the whole cleanup

  lemma {:induction false} FailuresLast(es: seq<ExportInfo>, e: ExportInfo, fails: string -> bool)
    ensures Failures([], fails) == 0
    ensures Failures(es + [e], fails) == Failures(es, fails) + if fails(e.path) then 1 else 0
  {
    if es == [] {
      assert ([] + [e])[1..] == [];
    } else {
      FailuresLast(es[1..], e, fails);
      assert (es + [e])[1..] == es[1..] + [e];
    }
  }

  /** With a maximum age and no other limit, what is deleted is exactly what is unpreserved and older. */
  lemma AgeAlone(listing: seq<ExportInfo>, toDelete: seq<ExportInfo>, config: Config, now: int)
    requires IsSelection(listing, toDelete, config, now) && config.maxCount <= 0 && config.maxTotalSize <= 0
    requires OldestFirst(listing)
    ensures forall e :: e in toDelete <==>
      e in listing && !e.preserved && config.maxAge > 0 && now - e.modTime > config.maxAge
  {
    var k := |toDelete|;
    var order: seq<ExportInfo> :|
      SortOf(order, Unpreserved(listing)) && IsCut(order, k, config, now) && toDelete == order[..k];
    UnpreservedElements(listing);
    hide Unpreserved, TotalSize;
    forall e | e in toDelete
      ensures e in listing && !e.preserved && TooOld(e, config, now)
    {
      var i :| 0 <= i < k && order[i] == e;
      assert e in multiset(order);
      assert !Meets(order[i..], config, now);
      var x: ExportInfo :| x in order[i..] && TooOld(x, config, now);
      assert order[i].modTime <= x.modTime;
    }
    forall e | e in listing && !e.preserved && TooOld(e, config, now)
      ensures e in toDelete
    {
      OverAgeSelected(listing, e, toDelete, config, now);
    }
  }

  /** An over-age export that no pattern matches is deleted, whatever the patterns do to others. */
  lemma UnmatchedDeleted(found: seq<ExportInfo>, i: nat, patterns: seq<string>,
                         matches: (string, string) -> Option<bool>, listing: seq<ExportInfo>,
                         toDelete: seq<ExportInfo>, config: Config, now: int)
    requires DistinctPaths(found) && IsListing(listing, found, patterns, matches)
    requires IsSelection(listing, toDelete, config, now)
    requires i < |found| && !found[i].preserved && config.maxAge > 0 && now - found[i].modTime > config.maxAge
    requires forall p :: p in patterns ==> matches(p, found[i].path) != Some(true)
    ensures exists d :: d in toDelete && d.path == found[i].path
  {
    ProtectedIff(patterns, found[i].path, matches);
    hide Protects, IsListing, IsSelection;
    assert Protects(patterns, found[i].path, matches) != Some(true);
    OverAgeDeletedIff(found, i, patterns, matches, listing, toDelete, config, now);
  }

  datatype CleanupResult = CleanupResult(deletedCount: nat, deletedSize: nat, preservedCount: int, errors: nat)

  function Failures(es: seq<ExportInfo>, fails: string -> bool): nat {
    if es == [] then 0 else (if fails(es[0].path) then 1 else 0) + Failures(es[1..], fails)
  }

  /** The exports found, marked as far as the patterns allow and sorted oldest first. */
  ghost predicate IsListing(listing: seq<ExportInfo>, found: seq<ExportInfo>, patterns: seq<string>,
                            matches: (string, string) -> Option<bool>)
  {
    && OldestFirst(listing) && DistinctPaths(listing)
    && exists marked, stop: nat ::
         && MarkedUpTo(found, marked, stop, patterns, matches) && multiset(listing) == multiset(marked)
         && (stop < |found| ==> Protects(patterns, found[stop].path, matches) == None)
  }

  /**
   Mark, sort, select, delete.  A failed removal is recorded but still counted as deleted.
   When nothing is selected the result is all zeros, PreservedCount included.
   */
  method CleanupOldExports(found: seq<ExportInfo>, config: Config, patterns: seq<string>,
                           matches: (string, string) -> Option<bool>, removeFails: string -> bool, now: int)
    returns (result: CleanupResult, toDelete: seq<ExportInfo>)
    requires DistinctPaths(found)
    ensures exists listing ::
              IsListing(listing, found, patterns, matches) && IsSelection(listing, toDelete, config, now)
    ensures result.deletedCount == |toDelete| && result.deletedSize == TotalSize(toDelete)
    ensures result.preservedCount == if toDelete == [] then 0 else |found| - |toDelete|
    ensures result.errors == if config.dryRun then 0 else Failures(toDelete, removeFails)
    ensures forall e ::
              && e in found && !e.preserved && config.maxAge > 0 && now - e.modTime > config.maxAge
              && (forall p :: p in patterns ==> matches(p, e.path) != Some(true)) ==>
                exists d :: d in toDelete && d.path == e.path
  {
    hide IsSelection;
    var marked, err, stop := MarkPreserved(found, patterns, matches);
    var sorted := SortOldestFirst(marked);
    assert |multiset(sorted)| == |multiset(marked)|;
    assert DistinctPaths(marked);
    DistinctPathsPermutation(marked, sorted);
    assert IsListing(sorted, found, patterns, matches);
    var size;
    toDelete, size := SelectForDeletion(sorted, config, now);
    forall e | && e in found && !e.preserved && config.maxAge > 0 && now - e.modTime > config.maxAge
               && (forall p :: p in patterns ==> matches(p, e.path) != Some(true))
      ensures exists d :: d in toDelete && d.path == e.path
    {
      var i :| 0 <= i < |found| && found[i] == e;
      UnmatchedDeleted(found, i, patterns, matches, sorted, toDelete, config, now);
    }
    hide IsListing;
    var count, deletedSize, errors := 0, 0, 0;
    for i := 0 to |toDelete|
      invariant count == i && deletedSize + TotalSize(toDelete[i..]) == TotalSize(toDelete)
      invariant errors + (if config.dryRun then 0 else Failures(toDelete[i..], removeFails))
        == if config.dryRun then 0 else Failures(toDelete, removeFails)
    {
      if !config.dryRun {
        if removeFails(toDelete[i].path) {
          errors := errors + 1;
        }
      }
      assert toDelete[i..][1..] == toDelete[i + 1..];
      count := count + 1;
      deletedSize := deletedSize + toDelete[i].size;
    }
    result := CleanupResult(count, deletedSize, if |toDelete| == 0 then 0 else |sorted| - |toDelete|, errors);
  }
}
