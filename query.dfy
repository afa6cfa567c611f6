/**
 * The complaint listing of `GET /api/complaints`: the filter object built
 * from the caller's role and the `status` query parameter, the store's
 * `find(filter)`, and `sort({createdAt: -1})`.
 */
module Query {
  import opened Wrappers
  import opened Records

  /** A MongoDB filter document with the two keys the handler may set. */
  datatype Filter = Filter(status: Option<string>, userId: Option<Id>)

  /**
   * The filter built by conditional assignment: an admin gets `status`
   * when the parameter is truthy and not "All"; anyone else gets `userId`
   * set to their own id, and the parameter is not consulted.
   */
  function BuildFilter(caller: Identity, status: Option<string>): (r: Filter)
    ensures caller.role == AdminRole ==> r.userId.None?
    ensures caller.role != AdminRole ==> r.status.None?
    ensures forall c :: Matches(c, r) <==>
      if caller.role == AdminRole then
        (status.Some? && status.value != "" && status.value != AllStatuses ==> c.status == status)
      else c.userId == caller.id
  {
    if caller.role == AdminRole then
      if status.Some? && status.value != "" && status.value != AllStatuses then Filter(status, None)
      else Filter(None, None)
    else Filter(None, Some(caller.id))
  }

  /** A complaint satisfies every key the filter sets. */
  predicate Matches(c: Complaint, f: Filter) {
    && (f.status.None? || c.status == f.status)
    && (f.userId.None? || c.userId == f.userId.value)
  }

  /** Creation stamps strictly increase along `s` (the order documents were inserted). */
  predicate Ascending(s: seq<Complaint>) {
    forall i, j :: 0 <= i < j < |s| ==> s[i].createdAt < s[j].createdAt
  }

  /** Creation stamps never increase along `s`: newest first. */
  predicate NewestFirst(s: seq<Complaint>) {
    forall i, j :: 0 <= i < j < |s| ==> s[i].createdAt >= s[j].createdAt
  }

  /**
   * `find(filter)`: every matching complaint, each as often as it is
   * stored, and no other.
   */
  function Find(cs: seq<Complaint>, f: Filter): (r: seq<Complaint>)
    ensures forall c :: multiset(r)[c] == if Matches(c, f) then multiset(cs)[c] else 0
  {
    if cs == [] then []
    else
      assert cs == [cs[0]] + cs[1..];
      (if Matches(cs[0], f) then [cs[0]] else []) + Find(cs[1..], f)
  }

  /** `Find` keeps only complaints from its input, so a lower bound on the stamps carries over. */
  lemma {:induction false} FindAbove(cs: seq<Complaint>, f: Filter, b: int)
    requires forall k :: 0 <= k < |cs| ==> cs[k].createdAt > b
    ensures forall k :: 0 <= k < |Find(cs, f)| ==> Find(cs, f)[k].createdAt > b
  {
    if cs != [] {
      FindAbove(cs[1..], f, b);
    }
  }

  /** `Find` keeps the stored order, so increasing stamps stay increasing. */
  lemma {:induction false} FindAscending(cs: seq<Complaint>, f: Filter)
    requires Ascending(cs)
    ensures Ascending(Find(cs, f))
  {
    if cs != [] {
      FindAscending(cs[1..], f);
      FindAbove(cs[1..], f, cs[0].createdAt);
    }
  }

  /** Putting a complaint no older than the head in front keeps a sequence newest first. */
  lemma ConsNewestFirst(y: Complaint, t: seq<Complaint>)
    requires NewestFirst(t)
    requires t == [] || y.createdAt >= t[0].createdAt
    ensures NewestFirst([y] + t)
  {
  }

  /** Places `x` into a newest-first sequence. */
  function Insert(x: Complaint, s: seq<Complaint>): (r: seq<Complaint>)
    requires NewestFirst(s)
    ensures NewestFirst(r)
    ensures multiset(r) == multiset(s) + multiset{x}
    ensures r[0] == x || (s != [] && r[0] == s[0])
  {
    if s == [] then [x]
    else if x.createdAt >= s[0].createdAt then
      ConsNewestFirst(x, s);
      [x] + s
    else
      var rest := Insert(x, s[1..]);
      assert s == [s[0]] + s[1..];
      ConsNewestFirst(s[0], rest);
      [s[0]] + rest
  }

  /** `sort({createdAt: -1})`: newest first, and a permutation of its input. */
  function SortNewestFirst(s: seq<Complaint>): (r: seq<Complaint>)
    ensures NewestFirst(r)
    ensures multiset(r) == multiset(s)
  {
    if s == [] then []
    else
      assert s == [s[0]] + s[1..];
      Insert(s[0], SortNewestFirst(s[1..]))
  }

  function Reverse(s: seq<Complaint>): (r: seq<Complaint>)
    ensures |r| == |s|
    ensures forall k :: 0 <= k < |s| ==> r[k] == s[|s| - 1 - k]
  {
    if s == [] then [] else Reverse(s[1..]) + [s[0]]
  }

  /** Inserting a complaint older than everything in `s` puts it last. */
  lemma {:induction false} InsertOldest(x: Complaint, s: seq<Complaint>)
    requires NewestFirst(s)
    requires forall k :: 0 <= k < |s| ==> x.createdAt < s[k].createdAt
    ensures Insert(x, s) == s + [x]
  {
    if s != [] {
      InsertOldest(x, s[1..]);
      assert [s[0]] + (s[1..] + [x]) == s + [x];
    }
  }

  /** The tail of an ascending sequence is ascending, and its head is older than all of it. */
  lemma AscendingHead(s: seq<Complaint>)
    requires s != [] && Ascending(s)
    ensures Ascending(s[1..])
    ensures forall k :: 0 <= k < |s| - 1 ==> s[0].createdAt < Reverse(s[1..])[k].createdAt
  {
    forall i, j | 0 <= i < j < |s[1..]| ensures s[1..][i].createdAt < s[1..][j].createdAt {
      assert s[1..][i] == s[i + 1] && s[1..][j] == s[j + 1];
    }
    var t := Reverse(s[1..]);
    forall k | 0 <= k < |t| ensures s[0].createdAt < t[k].createdAt {
      assert t[k] == s[|s| - 1 - k];
    }
  }

  /**
   * With distinct, increasing stamps the order is fully determined: the
   * sorted result is the stored order reversed.
   */
  lemma {:induction false} SortOfAscending(s: seq<Complaint>)
    requires Ascending(s)
    ensures SortNewestFirst(s) == Reverse(s)
  {
    if s != [] {
      AscendingHead(s);
      SortOfAscending(s[1..]);
      InsertOldest(s[0], Reverse(s[1..]));
      assert SortNewestFirst(s) == Insert(s[0], Reverse(s[1..]));
    }
  }

  /**
   * The listing the handler returns, with the role policy: an admin with
   * a status other than "" and "All" gets exactly the complaints with that
   * status, an admin otherwise gets all of them, and anyone else gets
   * exactly their own, whatever the parameter says. Always newest first;
   * when the stamps increase in stored order, the result is exactly the
   * selected complaints in reverse stored order.
   */
  function Listing(cs: seq<Complaint>, caller: Identity, status: Option<string>): (r: seq<Complaint>)
    ensures NewestFirst(r)
    ensures caller.role == AdminRole && status.Some? && status.value != "" && status.value != AllStatuses ==>
              forall c :: multiset(r)[c] == if c.status == status then multiset(cs)[c] else 0
    ensures caller.role == AdminRole && (status.None? || status.value == "" || status.value == AllStatuses) ==>
              multiset(r) == multiset(cs)
    ensures caller.role != AdminRole ==>
              forall c :: multiset(r)[c] == if c.userId == caller.id then multiset(cs)[c] else 0
    ensures Ascending(cs) ==> r == Reverse(Find(cs, BuildFilter(caller, status)))
  {
    var f := BuildFilter(caller, status);
    var found := Find(cs, f);
    var r := SortNewestFirst(found);
    assert Ascending(cs) ==> r == Reverse(found) by {
      if Ascending(cs) {
        FindAscending(cs, f);
        SortOfAscending(found);
      }
    }
    assert f.status.None? && f.userId.None? ==> multiset(r) == multiset(cs) by {
      if f.status.None? && f.userId.None? {
        assert forall c :: multiset(found)[c] == multiset(cs)[c];
      }
    }
    r
  }

  /** A non-admin's listing does not depend on the `status` parameter at all. */
  lemma ListingIgnoresStatusForNonAdmin(cs: seq<Complaint>, caller: Identity, s1: Option<string>, s2: Option<string>)
    requires caller.role != AdminRole
    ensures Listing(cs, caller, s1) == Listing(cs, caller, s2)
  {
  }
}
