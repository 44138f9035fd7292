/** What every run of the Dispatcher keeps: the Face's filter table is the top prefixes times
    the handlers, no Interest name matches two filters, and notification names never repeat. */
module DispatcherProperties {
  import opened DispatcherModel

  // ---------------------------------------------------------------------
  // The invariant
  // ---------------------------------------------------------------------

  ghost predicate Distinct(filters: seq<Filter>) {
    forall i, j :: 0 <= i < j < |filters| ==>
                     filters[i].id != filters[j].id
                     && (filters[i].top != filters[j].top || filters[i].rel != filters[j].rel)
  }

  /** No two filters can match the same name. */
  ghost predicate Unique(filters: seq<Filter>) {
    forall i, j :: 0 <= i < j < |filters| ==> !Overlap(filters[i].Prefix(), filters[j].Prefix())
  }

  ghost predicate HasFilter(filters: seq<Filter>, id: nat, top: Name) {
    exists f :: f in filters && f.id == id && f.top == top
  }

  ghost predicate HasPair(filters: seq<Filter>, top: Name, rel: Name) {
    exists f :: f in filters && f.top == top && f.rel == rel
  }

  ghost predicate PrefixesApart(d: Dispatcher) {
    && NoOverlaps(d.tops.Keys) && NoOverlaps(d.handlers.Keys)
    && forall p :: p in d.tops ==> d.tops[p].topPrefix == p
  }

  ghost function Drained(d: Dispatcher): FaceTables {
    Drain(d.face, d.posted)
  }

  /** The filters of the drained table belong to top prefixes and handlers, and the entry of
      each top prefix lists exactly the ids of its own. */
  ghost predicate Owned(d: Dispatcher, filters: seq<Filter>) {
    && Distinct(filters)
    && (forall f :: f in filters ==>
          && f.id < d.nextFilter && f.top in d.tops && f.rel in d.handlers
          && f.id in d.tops[f.top].interestFilters)
    && (forall p, id :: p in d.tops && id in d.tops[p].interestFilters ==> HasFilter(filters, id, p))
  }

  ghost predicate Complete(d: Dispatcher, filters: seq<Filter>) {
    forall p, h :: p in d.tops && h in d.handlers ==> HasPair(filters, p, h)
  }

  /** However few of the posted operations have run so far, the table has no overlap. */
  ghost predicate AlwaysUnique(face: FaceTables, posted: seq<FaceOp>) {
    forall k :: 0 <= k <= |posted| ==> Unique(Drain(face, posted[..k]).filters)
  }

  ghost predicate Inv(d: Dispatcher) {
    && PrefixesApart(d)
    && Owned(d, Drained(d).filters) && Complete(d, Drained(d).filters)
    && AlwaysUnique(d.face, d.posted)
  }

  // ---------------------------------------------------------------------
  // Names
  // ---------------------------------------------------------------------

  /** Joining two prefix-free sets of names gives a prefix-free set. */
  lemma JoinedApart(p: Name, h: Name, q: Name, k: Name, tops: set<Name>, rels: set<Name>)
    requires NoOverlaps(tops) && NoOverlaps(rels)
    requires p in tops && q in tops && h in rels && k in rels
    requires Overlap(p + h, q + k)
    ensures p == q && h == k
  {
    if p + h <= q + k {
      JoinedPrefix(p, h, q, k);
    } else {
      JoinedPrefix(q, k, p, h);
    }
  }

  lemma JoinedPrefix(p: Name, h: Name, q: Name, k: Name)
    requires p + h <= q + k
    ensures Overlap(p, q)
    ensures p == q ==> h <= k
  {
    assert p == (p + h)[..|p|] == (q + k)[..|p|];
    assert q == (q + k)[..|q|];
    if |p| <= |q| {
      assert p == (q + k)[..|q|][..|p|];
    } else {
      assert q == (q + k)[..|p|][..|q|];
    }
    if p == q {
      assert h == (p + h)[|p|..] && k == (q + k)[|q|..];
    }
  }

  /** The bookkeeping makes the drained table free of overlaps. */
  lemma OwnedIsUnique(d: Dispatcher, filters: seq<Filter>)
    requires PrefixesApart(d) && Owned(d, filters)
    ensures Unique(filters)
  {
    forall i, j | 0 <= i < j < |filters|
      ensures !Overlap(filters[i].Prefix(), filters[j].Prefix())
    {
      var f, g := filters[i], filters[j];
      assert f in filters && g in filters;
      if Overlap(f.Prefix(), g.Prefix()) {
        JoinedApart(f.top, f.rel, g.top, g.rel, d.tops.Keys, d.handlers.Keys);
      }
    }
  }

  // ---------------------------------------------------------------------
  // Posting and running
  // ---------------------------------------------------------------------

  lemma PostUnique(face: FaceTables, posted: seq<FaceOp>, op: FaceOp)
    requires AlwaysUnique(face, posted) && Unique(ApplyOp(Drain(face, posted), op).filters)
    ensures AlwaysUnique(face, posted + [op])
  {
    hide Unique, ApplyOp, Drain;
    DrainAppend(face, posted, op);
    var longer := posted + [op];
    forall k | 0 <= k <= |longer|
      ensures Unique(Drain(face, longer[..k]).filters)
    {
      if k <= |posted| {
        assert longer[..k] == posted[..k];
      } else {
        assert longer[..k] == longer;
      }
    }
  }

  lemma RunKeepsUnique(face: FaceTables, posted: seq<FaceOp>)
    requires AlwaysUnique(face, posted) && posted != []
    ensures AlwaysUnique(ApplyOp(face, posted[0]), posted[1..])
    ensures Drain(ApplyOp(face, posted[0]), posted[1..]) == Drain(face, posted)
  {
    hide Unique, ApplyOp;
    forall k | 0 <= k <= |posted[1..]|
      ensures Unique(Drain(ApplyOp(face, posted[0]), posted[1..][..k]).filters)
    {
      var longer := posted[..k + 1];
      assert longer[1..] == posted[1..][..k];
      assert Drain(face, longer) == Drain(ApplyOp(face, longer[0]), longer[1..]);
    }
  }

  // ---------------------------------------------------------------------
  // Adding a top prefix
  // ---------------------------------------------------------------------

  lemma AddFilterKeeps(d: Dispatcher, prefix: Name, rel: Name)
    requires PrefixesApart(d) && prefix in d.tops && rel in d.handlers
    requires Owned(d, Drained(d).filters) && !HasPair(Drained(d).filters, prefix, rel)
    requires AlwaysUnique(d.face, d.posted)
    ensures var r := AddFilter(d, prefix, rel);
            && PrefixesApart(r) && r.tops.Keys == d.tops.Keys && r.handlers == d.handlers
            && Drained(r).filters == Drained(d).filters + [Filter(d.nextFilter, prefix, rel)]
            && Owned(r, Drained(r).filters)
            && AlwaysUnique(r.face, r.posted)
  {
    hide Unique, Drain, AlwaysUnique;
    var f := Filter(d.nextFilter, prefix, rel);
    var r := AddFilter(d, prefix, rel);
    DrainAppend(d.face, d.posted, SetFilter(f));
    var filters := Drained(d).filters;
    assert r.tops.Keys == d.tops.Keys;
    OwnedGrows(d, r, filters, f);
    OwnedIsUnique(r, filters + [f]);
    PostUnique(d.face, d.posted, SetFilter(f));
  }

  lemma OwnedGrows(d: Dispatcher, r: Dispatcher, filters: seq<Filter>, f: Filter)
    requires Owned(d, filters) && f.top in d.tops && f.rel in d.handlers && f.id == d.nextFilter
    requires !HasPair(filters, f.top, f.rel)
    requires r.handlers == d.handlers && r.nextFilter == d.nextFilter + 1
    requires r.tops == d.tops[f.top := d.tops[f.top].(interestFilters := d.tops[f.top].interestFilters + [f.id])]
    ensures Owned(r, filters + [f])
  {
    var longer := filters + [f];
    assert forall g :: g in longer <==> g in filters || g == f;
    forall i, j | 0 <= i < j < |longer|
      ensures longer[i].id != longer[j].id && (longer[i].top != longer[j].top || longer[i].rel != longer[j].rel)
    {
      assert longer[i] in filters;
    }
    forall p, id | p in r.tops && id in r.tops[p].interestFilters
      ensures HasFilter(longer, id, p)
    {
      if p == f.top && id == f.id {
        assert f in longer;
      } else {
        assert HasFilter(filters, id, p);
      }
    }
  }

  lemma {:induction false} AddFiltersKeeps(d: Dispatcher, prefix: Name, order: seq<Name>)
    requires PrefixesApart(d) && prefix in d.tops && Owned(d, Drained(d).filters)
    requires AlwaysUnique(d.face, d.posted)
    requires forall i, j :: 0 <= i < j < |order| ==> order[i] != order[j]
    requires forall n :: n in order ==> n in d.handlers && !HasPair(Drained(d).filters, prefix, n)
    ensures var r := AddFilters(d, prefix, order);
            && PrefixesApart(r) && r.tops.Keys == d.tops.Keys && r.handlers == d.handlers
            && Owned(r, Drained(r).filters) && AlwaysUnique(r.face, r.posted)
            && (forall f :: f in Drained(d).filters ==> f in Drained(r).filters)
            && (forall n :: n in order ==> HasPair(Drained(r).filters, prefix, n))
            && AddsNothingElse(d, r)
    decreases |order|
  {
    hide Owned, AlwaysUnique, AddFilter, Drained, PrefixesApart;
    if order != [] {
      var rel := order[0];
      assert rel in order;
      AddFilterKeeps(d, prefix, rel);
      var s := AddFilter(d, prefix, rel);
      AddFilterRest(d, prefix, rel);
      assert Filter(d.nextFilter, prefix, rel) in Drained(s).filters;
      forall n | n in order[1..]
        ensures n in s.handlers && !HasPair(Drained(s).filters, prefix, n)
      {
        assert n in order && n != rel;
      }
      AddFiltersKeeps(s, prefix, order[1..]);
      var r := AddFilters(d, prefix, order);
      assert HasPair(Drained(r).filters, prefix, rel);
      assert order == [rel] + order[1..];
    }
  }

  ghost predicate AddsNothingElse(d: Dispatcher, r: Dispatcher) {
    r.streams == d.streams && r.sent == d.sent && r.face.filters == d.face.filters
  }

  lemma AddFilterRest(d: Dispatcher, prefix: Name, rel: Name)
    requires prefix in d.tops
    ensures AddsNothingElse(d, AddFilter(d, prefix, rel))
  {
  }

  lemma TopIsNew(d: Dispatcher, prefix: Name)
    requires PrefixesApart(d) && !TopOverlaps(d, prefix)
    ensures prefix !in d.tops && NoOverlaps(d.tops.Keys + {prefix})
  {
    assert Overlap(prefix, prefix);
  }

  lemma StartTopOwned(d: Dispatcher, prefix: Name, wantRegister: bool, filters: seq<Filter>)
    requires PrefixesApart(d) && Owned(d, filters) && !TopOverlaps(d, prefix)
    ensures var r := StartTop(d, prefix, wantRegister);
            && PrefixesApart(r) && r.tops.Keys == d.tops.Keys + {prefix} && r.handlers == d.handlers
            && Owned(r, filters) && AddsNothingElse(d, r)
            && (forall f :: f in filters ==> f.top != prefix)
  {
    hide NoOverlaps, Distinct;
    TopIsNew(d, prefix);
    assert StartTop(d, prefix, wantRegister).tops.Keys == d.tops.Keys + {prefix};
  }

  lemma StartTopKeeps(d: Dispatcher, prefix: Name, wantRegister: bool)
    requires Inv(d) && !TopOverlaps(d, prefix)
    ensures var r := StartTop(d, prefix, wantRegister);
            && PrefixesApart(r) && r.tops.Keys == d.tops.Keys + {prefix} && r.handlers == d.handlers
            && Drained(r).filters == Drained(d).filters
            && Owned(r, Drained(r).filters)
            && AlwaysUnique(r.face, r.posted)
            && AddsNothingElse(d, r)
            && (forall f :: f in Drained(d).filters ==> f.top != prefix)
  {
    hide Unique, Drain, AlwaysUnique, PrefixesApart, Owned;
    TopIsNew(d, prefix);
    StartTopOwned(d, prefix, wantRegister, Drained(d).filters);
    SameFiltersDrained(d.face, StartTop(d, prefix, wantRegister).face, d.posted);
    SameFiltersUnique(d.face, StartTop(d, prefix, wantRegister).face, d.posted);
  }

  lemma AddTopKeepsInv(d: Dispatcher, prefix: Name, wantRegister: bool, order: seq<Name>)
    requires Inv(d) && Enumerates(order, d.handlers.Keys)
    ensures Inv(AddTopPrefix(d, prefix, wantRegister, order))
    ensures AddsNothingElse(d, AddTopPrefix(d, prefix, wantRegister, order))
  {
    hide Owned, AlwaysUnique, StartTop, AddFilters, Drained, PrefixesApart;
    if !TopOverlaps(d, prefix) {
      var s := StartTop(d, prefix, wantRegister);
      StartTopKeeps(d, prefix, wantRegister);
      AddFiltersKeeps(s, prefix, order);
      var r := AddFilters(s, prefix, order);
      forall p, h | p in r.tops && h in r.handlers
        ensures HasPair(Drained(r).filters, p, h)
      {
        if p == prefix {
          assert h in order;
        } else {
          assert HasPair(Drained(d).filters, p, h);
        }
      }
    }
  }

  // ---------------------------------------------------------------------
  // Removing a top prefix
  // ---------------------------------------------------------------------

  function RemoveFilters(filters: seq<Filter>, ids: seq<nat>): seq<Filter>
    decreases |ids|
  {
    if ids == [] then filters else RemoveFilters(RemoveFilter(filters, ids[0]), ids[1..])
  }

  ghost predicate DistinctIds(filters: seq<Filter>) {
    forall i, j :: 0 <= i < j < |filters| ==> filters[i].id != filters[j].id
  }

  lemma {:induction false} RemoveFilterIs(filters: seq<Filter>, id: nat)
    requires DistinctIds(filters)
    ensures var r := RemoveFilter(filters, id);
            && DistinctIds(r)
            && (forall f :: f in r <==> f in filters && f.id != id)
    decreases |filters|
  {
    if filters != [] {
      var rest := filters[1..];
      assert filters == [filters[0]] + rest;
      RemoveFilterIs(rest, id);
      if filters[0].id != id {
        var r := RemoveFilter(rest, id);
        forall j | 0 <= j < |r|
          ensures r[j].id != filters[0].id
        {
          assert r[j] in rest;
        }
      }
    }
  }

  lemma {:induction false} RemoveFiltersIs(filters: seq<Filter>, ids: seq<nat>)
    requires DistinctIds(filters)
    ensures var r := RemoveFilters(filters, ids);
            && DistinctIds(r)
            && (forall f :: f in r <==> f in filters && f.id !in ids)
    decreases |ids|
  {
    hide DistinctIds;
    if ids != [] {
      RemoveFilterIs(filters, ids[0]);
      RemoveFiltersIs(RemoveFilter(filters, ids[0]), ids[1..]);
      assert ids == [ids[0]] + ids[1..];
    }
  }

  /** Taking a filter away cannot create an overlap. */
  lemma {:induction false} RemoveKeepsUnique(filters: seq<Filter>, id: nat)
    requires Unique(filters)
    ensures Unique(RemoveFilter(filters, id))
    ensures forall f :: f in RemoveFilter(filters, id) ==> f in filters
    decreases |filters|
  {
    if filters != [] {
      var rest := filters[1..];
      assert filters == [filters[0]] + rest;
      RemoveKeepsUnique(rest, id);
      if filters[0].id != id {
        var r := RemoveFilter(rest, id);
        forall j | 0 <= j < |r|
          ensures !Overlap(filters[0].Prefix(), r[j].Prefix())
        {
          assert r[j] in rest;
          var k :| 0 <= k < |rest| && rest[k] == r[j];
          assert filters[k + 1] == r[j];
        }
      }
    }
  }

  lemma {:induction false} UnsetFiltersDrains(d: Dispatcher, ids: seq<nat>)
    requires AlwaysUnique(d.face, d.posted)
    ensures var r := UnsetFilters(d, ids);
            && r == d.(posted := r.posted)
            && Drained(r) == Drained(d).(filters := RemoveFilters(Drained(d).filters, ids))
            && AlwaysUnique(r.face, r.posted)
    decreases |ids|
  {
    hide Unique, AlwaysUnique, Drain;
    if ids != [] {
      var op := UnsetFilter(ids[0]);
      DrainAppend(d.face, d.posted, op);
      WholeIsUnique(d.face, d.posted);
      RemoveKeepsUnique(Drained(d).filters, ids[0]);
      PostUnique(d.face, d.posted, op);
      UnsetFiltersDrains(PostOp(d, op), ids[1..]);
    }
  }

  lemma WholeIsUnique(face: FaceTables, posted: seq<FaceOp>)
    requires AlwaysUnique(face, posted)
    ensures Unique(Drain(face, posted).filters)
  {
    assert posted[..|posted|] == posted;
  }

  /** Removing one top prefix removes exactly its own filters. */
  lemma RemovedFilters(d: Dispatcher, prefix: Name, filters: seq<Filter>)
    requires prefix in d.tops && Owned(d, filters)
    ensures var r := RemoveFilters(filters, d.tops[prefix].interestFilters);
            && DistinctIds(r)
            && (forall f :: f in r <==> f in filters && f.top != prefix)
  {
    var ids := d.tops[prefix].interestFilters;
    RemoveFiltersIs(filters, ids);
    forall f | f in filters
      ensures f.id in ids <==> f.top == prefix
    {
      if f.id in ids {
        assert HasFilter(filters, f.id, prefix);
        var g :| g in filters && g.id == f.id && g.top == prefix;
        SameId(filters, f, g);
      }
    }
  }

  lemma SameId(filters: seq<Filter>, f: Filter, g: Filter)
    requires DistinctIds(filters) && f in filters && g in filters && f.id == g.id
    ensures f == g
  {
  }

  lemma SamePair(filters: seq<Filter>, f: Filter, g: Filter)
    requires Distinct(filters) && f in filters && g in filters && f.top == g.top && f.rel == g.rel
    ensures f == g
  {
  }

  lemma OwnedShrinks(d: Dispatcher, prefix: Name, filters: seq<Filter>, r: Dispatcher)
    requires prefix in d.tops && Owned(d, filters) && Complete(d, filters)
    requires r.tops == d.tops - {prefix} && r.handlers == d.handlers && r.nextFilter == d.nextFilter
    ensures var left := RemoveFilters(filters, d.tops[prefix].interestFilters);
            Owned(r, left) && Complete(r, left)
  {
    hide DistinctIds;
    var left := RemoveFilters(filters, d.tops[prefix].interestFilters);
    RemovedFilters(d, prefix, filters);
    LeftDistinct(filters, left);
    forall p, id | p in r.tops && id in r.tops[p].interestFilters
      ensures HasFilter(left, id, p)
    {
      assert HasFilter(filters, id, p);
    }
    forall p, h | p in r.tops && h in r.handlers
      ensures HasPair(left, p, h)
    {
      assert HasPair(filters, p, h);
    }
  }

  lemma LeftDistinct(filters: seq<Filter>, left: seq<Filter>)
    requires Distinct(filters) && DistinctIds(left) && forall f :: f in left ==> f in filters
    ensures Distinct(left)
  {
    forall i, j | 0 <= i < j < |left|
      ensures left[i].id != left[j].id && (left[i].top != left[j].top || left[i].rel != left[j].rel)
    {
      assert left[i] in filters && left[j] in filters;
      if left[i].top == left[j].top && left[i].rel == left[j].rel {
        SamePair(filters, left[i], left[j]);
      }
    }
  }

  lemma RemoveTopKeepsInv(d: Dispatcher, prefix: Name)
    requires Inv(d)
    ensures var r := RemoveTopPrefix(d, prefix);
            && Inv(r) && AddsNothingElse(d, r) && r.handlers == d.handlers
            && r.tops == d.tops - {prefix}
            && (forall f :: f in Drained(r).filters <==> f in Drained(d).filters && f.top != prefix)
  {
    hide Unique, AlwaysUnique, Drain, Owned, Complete, NoOverlaps, UnsetFilters;
    var r := RemoveTopPrefix(d, prefix);
    if prefix in d.tops {
      var entry := d.tops[prefix];
      var op := UnregisterPrefix(entry.registerPrefixId);
      var d1 := if entry.wantRegister then PostOp(d, op) else d;
      WholeIsUnique(d.face, d.posted);
      if entry.wantRegister {
        DrainAppend(d.face, d.posted, op);
        PostUnique(d.face, d.posted, op);
      }
      UnsetFiltersDrains(d1, entry.interestFilters);
      RemovedFilters(d, prefix, Drained(d).filters);
      OwnedShrinks(d, prefix, Drained(d).filters, r);
      FewerApart(d.tops.Keys, r.tops.Keys);
    } else {
      assert d.tops - {prefix} == d.tops;
      NotOwned(d, Drained(d).filters, prefix);
    }
  }

  lemma FewerApart(more: set<Name>, fewer: set<Name>)
    requires NoOverlaps(more) && fewer <= more
    ensures NoOverlaps(fewer)
  {
  }

  lemma NotOwned(d: Dispatcher, filters: seq<Filter>, prefix: Name)
    requires Owned(d, filters) && prefix !in d.tops
    ensures forall f :: f in filters ==> f.top != prefix
  {
  }

  /** The destructor leaves no top prefix and no filter. */
  lemma {:induction false} DestructorLeavesNothing(d: Dispatcher, order: seq<Name>)
    requires Inv(d) && forall p :: p in d.tops ==> p in order
    ensures var r := RemoveTopPrefixes(d, order);
            r.tops == map[] && Drained(r).filters == []
    decreases |order|
  {
    if order == [] {
      EmptyBooks(d);
    } else {
      hide Inv, RemoveTopPrefix;
      RemoveTopKeepsInv(d, order[0]);
      assert order == [order[0]] + order[1..];
      DestructorLeavesNothing(RemoveTopPrefix(d, order[0]), order[1..]);
    }
  }

  lemma EmptyBooks(d: Dispatcher)
    requires Inv(d) && forall p :: p !in d.tops
    ensures d.tops == map[] && Drained(d).filters == []
  {
    NonEmptyHasOne(Drained(d).filters);
  }

  lemma NonEmptyHasOne(filters: seq<Filter>)
    ensures filters != [] ==> exists f :: f in filters
  {
    if filters != [] {
      assert filters[0] in filters;
    }
  }

  // ---------------------------------------------------------------------
  // Handlers, notifications, posted operations
  // ---------------------------------------------------------------------

  lemma AddHandlerKeepsInv(d: Dispatcher, rel: Name, kind: HandlerKind)
    requires Inv(d)
    ensures Inv(AddHandler(d, rel, kind))
  {
    hide Unique, AlwaysUnique, Drain;
    if HandlerReply(d, rel) == Accepted {
      EmptyBooks(d);
      HandlersApart(d, rel);
      assert AddHandler(d, rel, kind).handlers.Keys == d.handlers.Keys + {rel};
    }
  }

  lemma HandlersApart(d: Dispatcher, rel: Name)
    requires NoOverlaps(d.handlers.Keys) && !OverlapsOthers(d, rel)
    ensures NoOverlaps(d.handlers.Keys + {rel})
  {
  }

  lemma StepKeepsInv(d: Dispatcher, e: Event)
    requires Inv(d) && Enabled(d, e)
    ensures Inv(Step(d, e))
  {
    hide AddTopPrefix, RemoveTopPrefix, AddHandler, PrefixesApart, Owned, Complete, AlwaysUnique;
    match e
    case EvAddHandler(rel, kind) => AddHandlerKeepsInv(d, rel, kind);
    case EvAddTop(prefix, wantRegister, order) => AddTopKeepsInv(d, prefix, wantRegister, order);
    case EvRemoveTop(prefix) => RemoveTopKeepsInv(d, prefix);
    case EvNotify(top, rel) => NotifyKeepsInv(d, top, rel);
    case EvFaceRuns => FaceRunsKeepsInv(d);
    case EvRegisterReply(_, _) => ReplyKeepsInv(d, Step(d, e));
    case EvUnregisterReply(_, _) => ReplyKeepsInv(d, Step(d, e));
  }

  /** Responses to prefix commands do not touch the filters. */
  lemma ReplyKeepsInv(d: Dispatcher, r: Dispatcher)
    requires Inv(d) && r == d.(face := r.face) && r.face.filters == d.face.filters
    ensures Inv(r)
  {
    hide Unique, Drain, Owned, Complete, PrefixesApart;
    SameFiltersDrained(d.face, r.face, d.posted);
    SameFiltersUnique(d.face, r.face, d.posted);
    assert Owned(r, Drained(d).filters) && Complete(r, Drained(d).filters) && PrefixesApart(r) by {
      BooksApart(d, r, Drained(d).filters);
    }
  }

  lemma BooksApart(d: Dispatcher, r: Dispatcher, filters: seq<Filter>)
    requires r == d.(face := r.face)
    ensures Owned(d, filters) ==> Owned(r, filters)
    ensures Complete(d, filters) ==> Complete(r, filters)
    ensures PrefixesApart(d) ==> PrefixesApart(r)
  {
  }

  lemma {:induction false} SameFiltersDrained(t: FaceTables, t': FaceTables, ops: seq<FaceOp>)
    requires t.filters == t'.filters
    ensures Drain(t, ops).filters == Drain(t', ops).filters
    decreases |ops|
  {
    if ops != [] {
      SameFiltersDrained(ApplyOp(t, ops[0]), ApplyOp(t', ops[0]), ops[1..]);
    }
  }

  lemma SameFiltersUnique(t: FaceTables, t': FaceTables, ops: seq<FaceOp>)
    requires t.filters == t'.filters && AlwaysUnique(t, ops)
    ensures AlwaysUnique(t', ops)
  {
    hide Unique, Drain;
    forall k | 0 <= k <= |ops|
      ensures Unique(Drain(t', ops[..k]).filters)
    {
      SameFiltersDrained(t, t', ops[..k]);
    }
  }

  lemma NotifyKeepsInv(d: Dispatcher, top: Name, rel: Name)
    requires Inv(d)
    ensures Inv(PostNotification(d, top, rel))
  {
  }

  lemma FaceRunsKeepsInv(d: Dispatcher)
    requires Inv(d)
    ensures Inv(RunPosted(d))
  {
    hide AlwaysUnique, Drain, ApplyOp, NoOverlaps, Distinct, HasFilter, HasPair;
    if d.posted != [] {
      RunKeepsUnique(d.face, d.posted);
    }
  }

  lemma {:induction false} RunKeepsInv(d: Dispatcher, events: seq<Event>)
    requires Inv(d) && Possible(d, events)
    ensures Inv(Run(d, events))
    decreases |events|
  {
    hide Inv, Step, Enabled;
    if events != [] {
      StepKeepsInv(d, events[0]);
      RunKeepsInv(Step(d, events[0]), events[1..]);
    }
  }

  lemma InitialInv()
    ensures Inv(DISPATCHER_INITIAL)
  {
  }

  /** Filter bookkeeping over any run: with the posted operations drained, the Face's filters
      are the top prefixes each joined with every handler prefix, each exactly once. */
  lemma FilterBookkeeping(events: seq<Event>)
    requires Possible(DISPATCHER_INITIAL, events)
    ensures var d := Run(DISPATCHER_INITIAL, events);
            var filters := Drained(d).filters;
            && (forall p, h :: p in d.tops && h in d.handlers <==> HasPair(filters, p, h))
            && Distinct(filters)
  {
    hide Drain, AlwaysUnique, Step, Enabled, Distinct;
    InitialInv();
    RunKeepsInv(DISPATCHER_INITIAL, events);
  }

  // ---------------------------------------------------------------------
  // Dispatch
  // ---------------------------------------------------------------------

  /** The filters whose callback processInterestFilters invokes, in table order. */
  function Matching(filters: seq<Filter>, name: Name): seq<Filter> {
    if filters == [] then []
    else (if filters[0].Matches(name) then [filters[0]] else []) + Matching(filters[1..], name)
  }

  lemma {:induction false} MatchingIs(filters: seq<Filter>, name: Name)
    ensures forall f :: f in Matching(filters, name) <==> f in filters && f.Matches(name)
    decreases |filters|
  {
    if filters != [] {
      MatchingIs(filters[1..], name);
      assert filters == [filters[0]] + filters[1..];
    }
  }

  lemma PrefixesOfOneName(a: Name, b: Name, name: Name)
    requires a <= name && b <= name
    ensures Overlap(a, b)
  {
    assert a == name[..|a|] && b == name[..|b|];
    if |a| <= |b| {
      assert a == name[..|b|][..|a|];
    } else {
      assert b == name[..|a|][..|b|];
    }
  }

  lemma {:induction false} UniqueMatchesOnce(filters: seq<Filter>, name: Name)
    requires Unique(filters)
    ensures |Matching(filters, name)| <= 1
    decreases |filters|
  {
    if filters != [] {
      var rest := filters[1..];
      UniqueMatchesOnce(rest, name);
      if filters[0].Matches(name) {
        forall f | f in rest
          ensures !f.Matches(name)
        {
          var k :| 0 <= k < |rest| && rest[k] == f;
          assert filters[k + 1] == f;
          if f.Matches(name) {
            PrefixesOfOneName(filters[0].Prefix(), f.Prefix(), name);
          }
        }
        MatchingIs(rest, name);
        NonEmptyHasOne(Matching(rest, name));
      }
    }
  }

  lemma PairFilter(d: Dispatcher, filters: seq<Filter>, p: Name, h: Name) returns (f: Filter)
    requires Complete(d, filters) && p in d.tops && h in d.handlers
    ensures f in filters && f.top == p && f.rel == h && f.Prefix() == p + h
  {
    assert HasPair(filters, p, h);
    f :| f in filters && f.top == p && f.rel == h;
  }

  lemma OnlyMember(s: seq<Filter>, f: Filter)
    requires |s| <= 1 && f in s
    ensures s == [f]
  {
  }

  /** An Interest under a top prefix and a handler prefix matches the filter of that pair and
      no other. */
  lemma MatchesItsHandler(d: Dispatcher, filters: seq<Filter>, p: Name, h: Name, name: Name) returns (f: Filter)
    requires Complete(d, filters) && Unique(filters)
    requires p in d.tops && h in d.handlers && p + h <= name
    ensures Matching(filters, name) == [f] && f.top == p && f.rel == h
  {
    f := PairFilter(d, filters, p, h);
    assert f.Matches(name);
    hide *;
    UniqueMatchesOnce(filters, name);
    MatchingIs(filters, name);
    OnlyMember(Matching(filters, name), f);
  }

  /** Unique dispatch: in every state of every run, also while posted operations are waiting,
      an Interest invokes at most one handler. Once they are drained, an Interest under a top
      prefix and a handler prefix invokes that handler, bound to that top prefix. */
  lemma UniqueDispatch(events: seq<Event>, name: Name)
    requires Possible(DISPATCHER_INITIAL, events)
    ensures var d := Run(DISPATCHER_INITIAL, events);
            && |Matching(d.face.filters, name)| <= 1
            && |Matching(Drained(d).filters, name)| <= 1
            && forall p, h :: p in d.tops && h in d.handlers && p + h <= name ==>
                 exists f :: Matching(Drained(d).filters, name) == [f] && f.top == p && f.rel == h
  {
    InitialInv();
    RunKeepsInv(DISPATCHER_INITIAL, events);
    hide Run, Drain, Unique, Owned, PrefixesApart, Matching, Complete, AlwaysUnique;
    var d := Run(DISPATCHER_INITIAL, events);
    NowIsUnique(d.face, d.posted);
    WholeIsUnique(d.face, d.posted);
    UniqueMatchesOnce(d.face.filters, name);
    UniqueMatchesOnce(Drained(d).filters, name);
    forall p, h | p in d.tops && h in d.handlers && p + h <= name
      ensures exists f :: Matching(Drained(d).filters, name) == [f] && f.top == p && f.rel == h
    {
      var f := MatchesItsHandler(d, Drained(d).filters, p, h, name);
    }
  }

  lemma NowIsUnique(face: FaceTables, posted: seq<FaceOp>)
    requires AlwaysUnique(face, posted)
    ensures Unique(face.filters)
  {
    assert Drain(face, posted[..0]) == face;
  }

  // ---------------------------------------------------------------------
  // Notification names
  // ---------------------------------------------------------------------

  function Count(sent: seq<Notification>, stream: Name): nat {
    if sent == [] then 0
    else Count(sent[..|sent| - 1], stream) + (if sent[|sent| - 1].stream == stream then 1 else 0)
  }

  /** Every stream's notifications are numbered 0, 1, 2, ... as 64-bit numbers, and the
      counter of the stream is the number of the next one. */
  ghost predicate Numbered(d: Dispatcher) {
    && (forall f: Name :: NextNumber(d, f) == Count(d.sent, f) % SEQUENCE_NUMBERS)
    && (forall i :: 0 <= i < |d.sent| ==>
          d.sent[i].number == Count(d.sent[..i], d.sent[i].stream) % SEQUENCE_NUMBERS)
  }

  lemma SendKeepsNumbered(d: Dispatcher, top: Name, rel: Name)
    requires Numbered(d) && top in d.tops
    ensures Numbered(SendNotification(d, top, rel))
  {
    var r := SendNotification(d, top, rel);
    var stream := d.tops[top].topPrefix + rel;
    assert r.sent[..|d.sent|] == d.sent;
    forall f: Name
      ensures NextNumber(r, f) == Count(r.sent, f) % SEQUENCE_NUMBERS
    {
      assert NextNumber(d, f) == Count(d.sent, f) % SEQUENCE_NUMBERS;
      if f == stream {
        NextModulo(Count(d.sent, f));
      }
    }
    forall i | 0 <= i < |r.sent|
      ensures r.sent[i].number == Count(r.sent[..i], r.sent[i].stream) % SEQUENCE_NUMBERS
    {
      if i < |d.sent| {
        assert r.sent[..i] == d.sent[..i];
      }
    }
  }

  lemma NextModulo(n: nat)
    ensures (n % SEQUENCE_NUMBERS + 1) % SEQUENCE_NUMBERS == (n + 1) % SEQUENCE_NUMBERS
  {
  }

  /** A new stream starts its counter at 0, which does not reset a counter in use: the name
      would overlap with itself in the stream table and be refused. */
  lemma AddHandlerKeepsNumbered(d: Dispatcher, rel: Name, kind: HandlerKind)
    requires Numbered(d)
    ensures Numbered(AddHandler(d, rel, kind))
  {
    var r := AddHandler(d, rel, kind);
    assert Overlap(rel, rel);
    forall f: Name
      ensures NextNumber(r, f) == Count(r.sent, f) % SEQUENCE_NUMBERS
    {
      assert NextNumber(d, f) == Count(d.sent, f) % SEQUENCE_NUMBERS;
    }
  }

  lemma SameNotifications(d: Dispatcher, r: Dispatcher)
    requires Numbered(d) && r.streams == d.streams && r.sent == d.sent
    ensures Numbered(r)
  {
    assert forall f: Name :: NextNumber(r, f) == NextNumber(d, f);
  }

  lemma StepKeepsNumbered(d: Dispatcher, e: Event)
    requires Inv(d) && Numbered(d) && Enabled(d, e)
    ensures Numbered(Step(d, e))
  {
    hide Inv, Numbered, AddHandler, AddTopPrefix, RemoveTopPrefix, SendNotification;
    match e
    case EvAddHandler(rel, kind) => AddHandlerKeepsNumbered(d, rel, kind);
    case EvAddTop(prefix, wantRegister, order) =>
      AddTopKeepsInv(d, prefix, wantRegister, order);
      SameNotifications(d, Step(d, e));
    case EvRemoveTop(prefix) =>
      RemoveTopKeepsInv(d, prefix);
      SameNotifications(d, Step(d, e));
    case EvNotify(top, rel) =>
      if top in d.tops {
        SendKeepsNumbered(d, top, rel);
      }
    case EvFaceRuns =>
      SameNotifications(d, Step(d, e));
    case _ =>
      SameNotifications(d, Step(d, e));
  }

  lemma {:induction false} RunKeepsNumbered(d: Dispatcher, events: seq<Event>)
    requires Inv(d) && Numbered(d) && Possible(d, events)
    ensures Numbered(Run(d, events))
    decreases |events|
  {
    hide Inv, Numbered, Step, Enabled;
    if events != [] {
      StepKeepsInv(d, events[0]);
      StepKeepsNumbered(d, events[0]);
      RunKeepsNumbered(Step(d, events[0]), events[1..]);
    }
  }

  /** Over any run, whatever top prefixes and streams come and go, each full stream name is
      numbered 0, 1, 2, ... without gaps. */
  lemma NumberedWithoutGaps(events: seq<Event>)
    requires Possible(DISPATCHER_INITIAL, events)
    ensures Numbered(Run(DISPATCHER_INITIAL, events))
  {
    InitialInv();
    RunKeepsNumbered(DISPATCHER_INITIAL, events);
  }

  ghost predicate NamesDistinct(sent: seq<Notification>) {
    forall i, j :: 0 <= i < j < |sent| ==> sent[i].DataName() != sent[j].DataName()
  }

  lemma SameDataName(a: Notification, b: Notification)
    requires a.DataName() == b.DataName()
    ensures a == b
  {
    var x, y := a.DataName(), b.DataName();
    assert x[..|x| - 1] == a.stream && y[..|y| - 1] == b.stream;
    assert x[|x| - 1] == SequenceNumber(a.number) && y[|y| - 1] == SequenceNumber(b.number);
  }

  lemma {:induction false} CountGrows(sent: seq<Notification>, i: nat, j: nat, stream: Name)
    requires i < j <= |sent| && sent[i].stream == stream
    ensures Count(sent[..i], stream) < Count(sent[..j], stream)
    decreases j
  {
    assert sent[..j][..j - 1] == sent[..j - 1];
    if i + 1 < j {
      CountGrows(sent, i, j - 1, stream);
    }
  }

  /** The k-th notification of a stream. */
  lemma {:induction false} NthOf(sent: seq<Notification>, stream: Name, k: nat) returns (i: nat)
    requires k < Count(sent, stream)
    ensures i < |sent| && sent[i].stream == stream && Count(sent[..i], stream) == k
  {
    var last := |sent| - 1;
    if k < Count(sent[..last], stream) {
      i := NthOf(sent[..last], stream, k);
      assert sent[..last][..i] == sent[..i];
    } else {
      i := last;
    }
  }

  /** Notification names never repeat exactly as long as no stream has been used more often
      than there are 64-bit numbers. */
  lemma NamesNeverRepeat(events: seq<Event>)
    requires Possible(DISPATCHER_INITIAL, events)
    ensures var sent := Run(DISPATCHER_INITIAL, events).sent;
            NamesDistinct(sent) <==> forall f: Name :: Count(sent, f) <= SEQUENCE_NUMBERS
  {
    hide Run, Possible;
    NumberedWithoutGaps(events);
    var d := Run(DISPATCHER_INITIAL, events);
    if forall f: Name :: Count(d.sent, f) <= SEQUENCE_NUMBERS {
      FewAreDistinct(d);
    }
    if f: Name :| Count(d.sent, f) > SEQUENCE_NUMBERS {
      ManyRepeat(d, f);
    }
  }

  lemma FewAreDistinct(d: Dispatcher)
    requires Numbered(d) && forall f: Name :: Count(d.sent, f) <= SEQUENCE_NUMBERS
    ensures NamesDistinct(d.sent)
  {
    var sent := d.sent;
    forall i, j | 0 <= i < j < |sent|
      ensures sent[i].DataName() != sent[j].DataName()
    {
      if sent[i].DataName() == sent[j].DataName() {
        SameDataName(sent[i], sent[j]);
        var f := sent[i].stream;
        CountGrows(sent, i, j, f);
        CountGrows(sent, j, |sent|, f);
        assert sent[..|sent|] == sent;
        SmallModulo(Count(sent[..i], f));
        SmallModulo(Count(sent[..j], f));
      }
    }
  }

  lemma SmallModulo(n: nat)
    ensures n < SEQUENCE_NUMBERS ==> n % SEQUENCE_NUMBERS == n
  {
  }

  lemma ManyRepeat(d: Dispatcher, f: Name)
    requires Numbered(d) && Count(d.sent, f) > SEQUENCE_NUMBERS
    ensures !NamesDistinct(d.sent)
  {
    var i := NthOf(d.sent, f, 0);
    var j := NthOf(d.sent, f, SEQUENCE_NUMBERS);
    assert d.sent[i] == d.sent[j];
    assert i != j;
  }
}
