/** What an applier loads from the queue directory (go/cmd/evolve/cli_queue.go): the request files, in order. */
module QueueListing {
  import opened Base
  import opened QueueProtocol
  import opened QueueOrder

  /** One directory entry: its name, whether it is a directory, whether it reads as a request for a queued verb,
      and the time stamp that was read. */
  datatype Listing = Listing(name: Name, isDir: bool, runnable: bool, queuedAt: string)

  const JSON: string := ".json"

  predicate IsRequestName(n: Name) { |n| >= |JSON| && n[|n| - |JSON|..] == JSON }

  predicate IsRequestFile(l: Listing) { !l.isDir && IsRequestName(l.name) }

  /** The name is some base with the extension written out behind it. */
  ghost predicate NamedJson(n: Name) { exists base: string :: n == base + ".json" }

  lemma RequestNames(n: Name)
    ensures IsRequestName(n) <==> NamedJson(n)
    ensures NamedJson(n) <==> |n| >= 5 && n[|n| - 5..] == ".json"
  {
    if |n| >= 5 && n[|n| - 5..] == ".json" {
      assert n == n[..|n| - 5] + ".json";
    }
    if NamedJson(n) {
      var base: string :| n == base + ".json";
      assert |n| == |base| + 5;
      assert n[|base|..] == ".json";
    }
  }

  predicate Before(a: Listing, b: Listing) {
    Less(a.queuedAt, b.queuedAt) || (a.queuedAt == b.queuedAt && Less(a.name, b.name))
  }

  predicate Sorted(ls: seq<Listing>) { forall i, j :: 0 <= i < j < |ls| ==> !Before(ls[j], ls[i]) }

  /** In order by time stamp, and where two stamps are the same by name. */
  predicate InOrder(a: Listing, b: Listing) {
    Less(a.queuedAt, b.queuedAt) || (a.queuedAt == b.queuedAt && (a.name == b.name || Less(a.name, b.name)))
  }

  lemma SortedMeans(ls: seq<Listing>)
    ensures Sorted(ls) <==> forall i, j :: 0 <= i < j < |ls| ==> InOrder(ls[i], ls[j])
  {
    forall i, j | 0 <= i < j < |ls| ensures !Before(ls[j], ls[i]) <==> InOrder(ls[i], ls[j]) {
      BeforeOrInOrder(ls[i], ls[j]);
    }
    hide Before, InOrder;
  }

  lemma BeforeOrInOrder(a: Listing, b: Listing)
    ensures !Before(b, a) <==> InOrder(a, b)
  {
    LessTotal(a.queuedAt, b.queuedAt);
    LessTotal(a.name, b.name);
    LessIrreflexive(a.queuedAt);
    LessIrreflexive(a.name);
    NotBoth(a.queuedAt, b.queuedAt);
    NotBoth(a.name, b.name);
    hide Less;
  }

  lemma NotBoth(a: string, b: string)
    ensures !(Less(a, b) && Less(b, a))
  {
    LessIrreflexive(a);
    if Less(a, b) && Less(b, a) {
      LessTransitive(a, b, a);
    }
  }

  function Insert(l: Listing, ls: seq<Listing>): seq<Listing> {
    if ls == [] || Before(l, ls[0]) then [l] + ls else [ls[0]] + Insert(l, ls[1..])
  }

  function Sort(ls: seq<Listing>): seq<Listing> {
    if ls == [] then [] else Insert(ls[|ls| - 1], Sort(ls[..|ls| - 1]))
  }

  lemma BeforeTransitive(a: Listing, b: Listing, c: Listing)
    requires !Before(b, a) && !Before(c, b)
    ensures !Before(c, a)
  {
    LessTotal(a.queuedAt, b.queuedAt);
    LessTotal(b.queuedAt, c.queuedAt);
    LessTotal(a.name, b.name);
    LessTotal(b.name, c.name);
    if Less(c.queuedAt, a.queuedAt) {
      if Less(a.queuedAt, b.queuedAt) { LessTransitive(c.queuedAt, a.queuedAt, b.queuedAt); }
    }
    if c.queuedAt == a.queuedAt && Less(c.name, a.name) && Less(a.name, b.name) {
      LessTransitive(c.name, a.name, b.name);
    }
  }

  lemma BeforeAsymmetric(a: Listing, b: Listing)
    ensures !(Before(a, b) && Before(b, a))
  {
    LessIrreflexive(a.queuedAt);
    LessIrreflexive(a.name);
    if Before(a, b) && Before(b, a) {
      if Less(a.queuedAt, b.queuedAt) {
        if Less(b.queuedAt, a.queuedAt) { LessTransitive(a.queuedAt, b.queuedAt, a.queuedAt); }
      } else {
        if Less(b.name, a.name) { LessTransitive(a.name, b.name, a.name); }
      }
    }
  }

  /** Nothing in `ls` comes before `x`. */
  predicate Heads(x: Listing, ls: seq<Listing>) { forall j :: 0 <= j < |ls| ==> !Before(ls[j], x) }

  lemma SortedCons(x: Listing, ls: seq<Listing>)
    ensures Sorted([x] + ls) <==> Sorted(ls) && Heads(x, ls)
  {
    hide Before;
    var r := [x] + ls;
    if Sorted(r) {
      forall j | 0 <= j < |ls|
        ensures !Before(ls[j], x) && forall i :: 0 <= i < j ==> !Before(ls[j], ls[i])
      {
        assert ls[j] == r[j + 1] && !Before(r[j + 1], r[0]);
        assert forall i :: 0 <= i < j ==> ls[i] == r[i + 1];
      }
    } else {
      var i, j :| 0 <= i < j < |r| && Before(r[j], r[i]);
      assert r[j] == ls[j - 1] && (i > 0 ==> r[i] == ls[i - 1]);
    }
  }

  lemma {:induction false} InsertHeads(x: Listing, l: Listing, ls: seq<Listing>)
    requires Heads(x, ls) && !Before(l, x)
    ensures Heads(x, Insert(l, ls))
  {
    hide Before;
    if ls != [] && !Before(l, ls[0]) {
      InsertHeads(x, l, ls[1..]);
    }
  }

  lemma {:induction false} InsertSorts(l: Listing, ls: seq<Listing>)
    requires Sorted(ls)
    ensures Sorted(Insert(l, ls))
  {
    if ls == [] {
    } else if Before(l, ls[0]) {
      BeforeAsymmetric(l, ls[0]);
      forall j | 0 <= j < |ls|
        ensures !Before(ls[j], l)
      {
        if j > 0 { BeforeTransitive(l, ls[0], ls[j]); }
      }
      SortedCons(l, ls);
    } else {
      assert ls == [ls[0]] + ls[1..];
      SortedCons(ls[0], ls[1..]);
      InsertSorts(l, ls[1..]);
      InsertHeads(ls[0], l, ls[1..]);
      SortedCons(ls[0], Insert(l, ls[1..]));
    }
  }

  lemma {:induction false} InsertKeeps(l: Listing, ls: seq<Listing>)
    ensures multiset(Insert(l, ls)) == multiset(ls) + multiset{l}
  {
    hide Before;
    if ls != [] && !Before(l, ls[0]) {
      assert ls == [ls[0]] + ls[1..];
      InsertKeeps(l, ls[1..]);
    }
  }

  /** The listing comes out in order, and nothing is lost or repeated. */
  lemma {:induction false} SortSorts(ls: seq<Listing>)
    ensures Sorted(Sort(ls)) && multiset(Sort(ls)) == multiset(ls)
    ensures forall i, j :: 0 <= i < j < |Sort(ls)| ==> InOrder(Sort(ls)[i], Sort(ls)[j])
  {
    if ls != [] {
      var front, last := ls[..|ls| - 1], ls[|ls| - 1];
      assert ls == front + [last];
      SortSorts(front);
      InsertSorts(last, Sort(front));
      InsertKeeps(last, Sort(front));
    }
    SortedMeans(Sort(ls));
  }

  predicate Distinct(ls: seq<Listing>) { forall i, j :: 0 <= i < j < |ls| ==> ls[i].name != ls[j].name }

  predicate NotListed(ls: seq<Listing>, name: Name) { forall i :: 0 <= i < |ls| ==> ls[i].name != name }

  lemma {:induction false} InsertDistinct(l: Listing, ls: seq<Listing>)
    requires Distinct(ls) && NotListed(ls, l.name)
    ensures Distinct(Insert(l, ls))
  {
    hide Before;
    if ls != [] && !Before(l, ls[0]) {
      InsertDistinct(l, ls[1..]);
      var more := Insert(l, ls[1..]);
      InsertKeeps(l, ls[1..]);
      forall j | 0 <= j < |more| ensures more[j].name != ls[0].name {
        assert more[j] in multiset(more);
        assert more[j] == l || more[j] in ls[1..];
      }
    }
  }

  /** Names that do not repeat do not repeat in order either. */
  lemma {:induction false} SortDistinct(ls: seq<Listing>)
    requires Distinct(ls)
    ensures Distinct(Sort(ls))
  {
    if ls != [] {
      var front, last := ls[..|ls| - 1], ls[|ls| - 1];
      SortDistinct(front);
      SortSorts(front);
      forall i | 0 <= i < |Sort(front)| ensures Sort(front)[i].name != last.name {
        assert Sort(front)[i] in multiset(Sort(front));
        assert Sort(front)[i] in front;
      }
      InsertDistinct(last, Sort(front));
    }
  }

  lemma {:induction false} FilterDistinct(ls: seq<Listing>, keep: Listing -> bool)
    requires Distinct(ls)
    ensures Distinct(Filter(ls, keep))
    ensures forall x :: x in Filter(ls, keep) <==> x in ls && keep(x)
  {
    if ls != [] {
      var more := Filter(ls[1..], keep);
      FilterDistinct(ls[1..], keep);
      assert ls == [ls[0]] + ls[1..];
      forall i | 0 <= i < |more| ensures more[i].name != ls[0].name {
        assert more[i] in ls[1..];
      }
    }
  }

  /** Of the requests that the program stamped, none is dispatched before one that was queued earlier. */
  lemma DispatchIsChronological(ls: seq<Listing>, stamps: seq<Timestamp>, i: nat, j: nat)
    requires Sorted(ls) && |stamps| == |ls| && i < j < |ls|
    requires stamps[i].Valid() && stamps[j].Valid() && ls[i].queuedAt == Format(stamps[i]) && ls[j].queuedAt == Format(stamps[j])
    ensures !stamps[j].Earlier(stamps[i])
  {
    FormatOrder(stamps[j], stamps[i]);
    hide Less, Format;
    assert !Before(ls[j], ls[i]);
    LessIrreflexive(ls[i].queuedAt);
  }
}
