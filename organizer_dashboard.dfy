/** The organizer's dashboard: approving or declining stall requests, the pending-only guard on
    those buttons, the revenue figure and the approved / pending counts. */
module OrganizerDashboard {
  import opened Records
  import opened Seqs

  datatype Decision = Approve | Decline

  /** The status an Approve or Decline click writes. */
  function Target(d: Decision): (s: string)
    ensures s == APPROVED || s == DECLINED
    ensures s != PENDING
    ensures (s == APPROVED) <==> d == Approve
  {
    assert PENDING[0] != APPROVED[0] && PENDING[0] != DECLINED[0] && APPROVED[0] != DECLINED[0];
    match d
    case Approve => APPROVED
    case Decline => DECLINED
  }

  /** Booking ids are the table's primary key. */
  ghost predicate UniqueIds(rs: seq<Booking>)
  {
    forall i, j :: 0 <= i < j < |rs| ==> rs[i].id != rs[j].id
  }

  /** `requests.map(r => r.id === id ? { ...r, status } : r)`. */
  function SetStatus(rs: seq<Booking>, id: string, status: string): (r: seq<Booking>)
    ensures |r| == |rs|
    ensures forall k :: 0 <= k < |rs| && rs[k].id == id ==> r[k] == rs[k].(status := status)
    ensures forall k :: 0 <= k < |rs| && rs[k].id != id ==> r[k] == rs[k]
  {
    if rs == [] then []
    else [if rs[0].id == id then rs[0].(status := status) else rs[0]] + SetStatus(rs[1..], id, status)
  }

  /** Updating one id's status keeps every id where it was, so unique ids stay unique. */
  lemma SetStatusKeepsIds(rs: seq<Booking>, id: string, status: string)
    requires UniqueIds(rs)
    ensures UniqueIds(SetStatus(rs, id, status))
    ensures forall k :: 0 <= k < |rs| ==> SetStatus(rs, id, status)[k].id == rs[k].id
  {
  }

  /** With unique ids, updating the id at index `k` replaces exactly that row. */
  lemma SetStatusAt(rs: seq<Booking>, k: nat, status: string)
    requires UniqueIds(rs) && k < |rs|
    ensures SetStatus(rs, rs[k].id, status) == rs[..k] + [rs[k].(status := status)] + rs[k + 1..]
  {
    var r := SetStatus(rs, rs[k].id, status);
    var e := rs[..k] + [rs[k].(status := status)] + rs[k + 1..];
    forall i | 0 <= i < |rs| ensures r[i] == e[i] {
      if i < k { assert rs[i].id != rs[k].id; }
      else if i > k { assert rs[k].id != rs[i].id; }
    }
  }

  /** Updates of two different ids commute: each leaves the other's row alone. */
  lemma DistinctUpdatesCommute(rs: seq<Booking>, id1: string, s1: string, id2: string, s2: string)
    requires id1 != id2
    ensures SetStatus(SetStatus(rs, id1, s1), id2, s2) == SetStatus(SetStatus(rs, id2, s2), id1, s1)
  {
    var a := SetStatus(SetStatus(rs, id1, s1), id2, s2);
    var b := SetStatus(SetStatus(rs, id2, s2), id1, s1);
    assert forall k :: 0 <= k < |rs| ==> a[k] == b[k];
  }

  // ---------------------------------------------------------------------------------------------
  // The request tile

  datatype Tile = DecisionButtons | ApprovedLabel | DeclinedLabel

  /** What a request's tile shows: Approve/Decline only while pending; any status other than pending
      or approved is labelled declined. */
  function RequestTile(status: string): (t: Tile)
    ensures t == DecisionButtons <==> status == PENDING
    ensures t == ApprovedLabel <==> status == APPROVED
    ensures t == DeclinedLabel <==> status != PENDING && status != APPROVED
  {
    if status == PENDING then DecisionButtons
    else if status == APPROVED then ApprovedLabel
    else DeclinedLabel
  }

  /** A decision taken from a pending request's buttons leaves every settled request as it was. */
  lemma DecisionKeepsSettled(rs: seq<Booking>, k: nat, d: Decision)
    requires UniqueIds(rs) && k < |rs| && RequestTile(rs[k].status) == DecisionButtons
    ensures forall i :: 0 <= i < |rs| && rs[i].status != PENDING ==>
              SetStatus(rs, rs[k].id, Target(d))[i] == rs[i]
    ensures SetStatus(rs, rs[k].id, Target(d))[k].status == Target(d)
  {
    var r := SetStatus(rs, rs[k].id, Target(d));
    forall i | 0 <= i < |rs| && rs[i].status != PENDING
      ensures r[i] == rs[i]
    {
      assert i != k;
      if i < k { assert rs[i].id != rs[k].id; } else { assert rs[k].id != rs[i].id; }
    }
  }

  /** The store update itself does not look at the current status: a settled booking written with
      the other decision takes the new status. */
  lemma SettledStatusCanBeOverwritten(rs: seq<Booking>, k: nat, d: Decision)
    requires k < |rs| && rs[k].status != PENDING && rs[k].status != Target(d)
    ensures SetStatus(rs, rs[k].id, Target(d))[k] == rs[k].(status := Target(d))
    ensures SetStatus(rs, rs[k].id, Target(d))[k].status != rs[k].status
  {
  }

  // ---------------------------------------------------------------------------------------------
  // Revenue and counts

  /** `Number(amount) || 0`: a non-numeric amount counts as zero. */
  function AmountValue(a: Amount): (r: real)
    ensures r != 0.0 ==> a == Numeric(r)
  {
    match a
    case Numeric(v) => v
    case NotANumber => 0.0
  }

  predicate IsApproved(b: Booking)
  {
    b.status == APPROVED
  }

  predicate IsPending(b: Booking)
  {
    b.status == PENDING
  }

  /** `reduce((sum, r) => sum + (Number(r.total_amount) || 0), 0)`. */
  function SumTotals(rs: seq<Booking>): (r: real)
    ensures (forall k :: 0 <= k < |rs| ==> AmountValue(rs[k].totalAmount) >= 0.0) ==> r >= 0.0
  {
    if rs == [] then 0.0 else AmountValue(rs[0].totalAmount) + SumTotals(rs[1..])
  }

  /** The dashboard's revenue figure: the total amounts of the approved requests. */
  function TotalRevenue(rs: seq<Booking>): (r: real)
    ensures (forall k :: 0 <= k < |rs| ==> !IsApproved(rs[k])) ==> r == 0.0
  {
    SumTotals(Filter(rs, IsApproved))
  }

  /** The length of `requests.filter(r => r.status === 'approved')`. */
  function ApprovedCount(rs: seq<Booking>): (n: nat)
    ensures n <= |rs|
    ensures n == 0 <==> forall k :: 0 <= k < |rs| ==> !IsApproved(rs[k])
  {
    FilterEmptyIff(rs, IsApproved);
    |Filter(rs, IsApproved)|
  }

  /** The length of `requests.filter(r => r.status === 'pending')`. */
  function PendingCount(rs: seq<Booking>): (n: nat)
    ensures n <= |rs|
    ensures n == 0 <==> forall k :: 0 <= k < |rs| ==> !IsPending(rs[k])
  {
    FilterEmptyIff(rs, IsPending);
    |Filter(rs, IsPending)|
  }

  lemma {:induction false} SumTotalsAppend(a: seq<Booking>, b: seq<Booking>)
    ensures SumTotals(a + b) == SumTotals(a) + SumTotals(b)
  {
    if a == [] {
      assert a + b == b;
    } else {
      assert (a + b)[1..] == a[1..] + b;
      SumTotalsAppend(a[1..], b);
    }
  }

  /** Revenue over two lists is the sum of their revenues. */
  lemma RevenueAppend(a: seq<Booking>, b: seq<Booking>)
    ensures TotalRevenue(a + b) == TotalRevenue(a) + TotalRevenue(b)
  {
    FilterAppend(a, b, IsApproved);
    SumTotalsAppend(Filter(a, IsApproved), Filter(b, IsApproved));
  }

  /** One request contributes its amount when approved and nothing otherwise. */
  lemma RevenueOfOne(x: Booking)
    ensures TotalRevenue([x]) == if IsApproved(x) then AmountValue(x.totalAmount) else 0.0
  {
    assert [x][1..] == [];
    assert Filter([x], IsApproved) == if IsApproved(x) then [x] else [];
    assert SumTotals([x]) == AmountValue(x.totalAmount) + SumTotals([]);
  }

  /** Revenue around one request: the prefix's, the request's own, the suffix's. */
  lemma RevenueAround(pre: seq<Booking>, x: Booking, post: seq<Booking>)
    ensures TotalRevenue(pre + [x] + post)
         == TotalRevenue(pre) + (if IsApproved(x) then AmountValue(x.totalAmount) else 0.0) + TotalRevenue(post)
  {
    RevenueAppend(pre + [x], post);
    RevenueAppend(pre, [x]);
    RevenueOfOne(x);
  }

  /** Adding or removing a request that is not approved leaves the revenue unchanged. */
  lemma RevenueIgnoresUnapproved(a: seq<Booking>, x: Booking, b: seq<Booking>)
    requires !IsApproved(x)
    ensures TotalRevenue(a + [x] + b) == TotalRevenue(a + b)
  {
    RevenueAround(a, x, b);
    RevenueAppend(a, b);
  }

  /** With non-negative amounts the revenue is non-negative. */
  lemma {:induction false} RevenueNonNegative(rs: seq<Booking>)
    requires forall k :: 0 <= k < |rs| ==> AmountValue(rs[k].totalAmount) >= 0.0
    ensures TotalRevenue(rs) >= 0.0
  {
    if rs != [] {
      RevenueNonNegative(rs[1..]);
      assert rs == [rs[0]] + rs[1..];
      RevenueAppend([rs[0]], rs[1..]);
      RevenueOfOne(rs[0]);
    }
  }

  /** A request is never both approved and pending, so the two counts never exceed the list. */
  lemma CountsBounded(rs: seq<Booking>)
    ensures ApprovedCount(rs) + PendingCount(rs) <= |rs|
  {
    DisjointFiltersBounded(rs, IsApproved, IsPending);
  }

  /** Replacing request `x` by `y` in place changes the revenue by the difference of their contributions
      and each count by the difference of their memberships. */
  lemma ReplaceEffect(pre: seq<Booking>, x: Booking, y: Booking, post: seq<Booking>)
    ensures TotalRevenue(pre + [y] + post) - TotalRevenue(pre + [x] + post)
         == (if IsApproved(y) then AmountValue(y.totalAmount) else 0.0)
          - (if IsApproved(x) then AmountValue(x.totalAmount) else 0.0)
    ensures ApprovedCount(pre + [y] + post) - ApprovedCount(pre + [x] + post)
         == (if IsApproved(y) then 1 else 0) - (if IsApproved(x) then 1 else 0)
    ensures PendingCount(pre + [y] + post) - PendingCount(pre + [x] + post)
         == (if IsPending(y) then 1 else 0) - (if IsPending(x) then 1 else 0)
  {
    RevenueAround(pre, x, post);
    RevenueAround(pre, y, post);
    FilterAround(pre, x, post, IsApproved);
    FilterAround(pre, y, post, IsApproved);
    FilterAround(pre, x, post, IsPending);
    FilterAround(pre, y, post, IsPending);
  }

  /** Deciding the pending request at index `k` (ids unique): an approval adds its amount to the
      revenue and moves it from the pending count to the approved count; a decline only removes it
      from the pending count. */
  lemma DecisionEffect(rs: seq<Booking>, k: nat, d: Decision)
    requires UniqueIds(rs) && k < |rs| && IsPending(rs[k])
    ensures TotalRevenue(SetStatus(rs, rs[k].id, Target(d)))
         == TotalRevenue(rs) + (if d == Approve then AmountValue(rs[k].totalAmount) else 0.0)
    ensures PendingCount(SetStatus(rs, rs[k].id, Target(d))) == PendingCount(rs) - 1
    ensures ApprovedCount(SetStatus(rs, rs[k].id, Target(d)))
         == ApprovedCount(rs) + (if d == Approve then 1 else 0)
  {
    var x := rs[k];
    var y := x.(status := Target(d));
    var pre, post := rs[..k], rs[k + 1..];
    SplitAt(rs, k);
    var after := SetStatus(rs, x.id, Target(d));
    assert after == pre + [y] + post by {
      SetStatusAt(rs, k, Target(d));
    }
    assert !IsApproved(x) && IsPending(x) && !IsPending(y) by {
      assert PENDING[0] != APPROVED[0];
    }
    assert IsApproved(y) <==> d == Approve;
    ReplaceEffect(pre, x, y, post);
  }

  /** The figures for requests {approved 1000, approved 2000, pending 500}. */
  lemma ThreeRequestsFigures(a: Booking, b: Booking, c: Booking)
    requires a.status == APPROVED && a.totalAmount == Numeric(1000.0)
    requires b.status == APPROVED && b.totalAmount == Numeric(2000.0)
    requires c.status == PENDING && c.totalAmount == Numeric(500.0)
    ensures TotalRevenue([a, b, c]) == 3000.0
    ensures ApprovedCount([a, b, c]) == 2 && PendingCount([a, b, c]) == 1
  {
    assert PENDING[0] != APPROVED[0];
    assert [a, b, c] == [a] + [b] + [c];
    RevenueAppend([a] + [b], [c]);
    RevenueAppend([a], [b]);
    RevenueOfOne(a);
    RevenueOfOne(b);
    RevenueOfOne(c);
    FilterAppend([a] + [b], [c], IsApproved);
    FilterAppend([a], [b], IsApproved);
    FilterAppend([a] + [b], [c], IsPending);
    FilterAppend([a], [b], IsPending);
    assert [a][1..] == [] && [b][1..] == [] && [c][1..] == [];
  }

  // ---------------------------------------------------------------------------------------------
  // Overlapping clicks

  /** An Approve/Decline click whose store write is still outstanding, with the request list its
      handler captured when the page was last rendered. */
  datatype Click = Click(snapshot: seq<Booking>, id: string, decision: Decision)

  /** The list after a click's write succeeds, as the handler computes it: from its snapshot. */
  function CompleteAsWritten(current: seq<Booking>, c: Click): (r: seq<Booking>)
    ensures |r| == |c.snapshot|
    ensures forall k :: 0 <= k < |r| && c.snapshot[k].id == c.id ==> r[k] == c.snapshot[k].(status := Target(c.decision))
    ensures forall k :: 0 <= k < |r| && c.snapshot[k].id != c.id ==> r[k] == c.snapshot[k]
  {
    SetStatus(c.snapshot, c.id, Target(c.decision))
  }

  /** The list after a click's write succeeds, computed from the list current at that moment. */
  function CompleteOnCurrent(current: seq<Booking>, c: Click): (r: seq<Booking>)
    ensures |r| == |current|
    ensures forall k :: 0 <= k < |r| && current[k].id == c.id ==> r[k] == current[k].(status := Target(c.decision))
    ensures forall k :: 0 <= k < |r| && current[k].id != c.id ==> r[k] == current[k]
  {
    SetStatus(current, c.id, Target(c.decision))
  }

  /** Two requests approved from the same render: once both writes succeed, the first one shows
      as pending again although the store holds it as approved. */
  lemma OverlappingClicksLoseUpdate(x: Booking, y: Booking)
    requires x.id != y.id && x.status == PENDING && y.status == PENDING
    ensures var rs := [x, y];
      var after := CompleteAsWritten(CompleteAsWritten(rs, Click(rs, x.id, Approve)), Click(rs, y.id, Approve));
      after[0].status == PENDING && after[1].status == APPROVED
  {
  }

  /** Applied to the current list, two clicks on different requests both take effect, in either
      order of completion. */
  lemma OverlappingClicksKeepBoth(rs: seq<Booking>, c1: Click, c2: Click)
    requires c1.id != c2.id
    ensures var after := CompleteOnCurrent(CompleteOnCurrent(rs, c1), c2);
      && after == CompleteOnCurrent(CompleteOnCurrent(rs, c2), c1)
      && (forall k :: 0 <= k < |rs| && rs[k].id == c1.id ==> after[k].status == Target(c1.decision))
      && (forall k :: 0 <= k < |rs| && rs[k].id == c2.id ==> after[k].status == Target(c2.decision))
  {
    DistinctUpdatesCommute(rs, c1.id, Target(c1.decision), c2.id, Target(c2.decision));
  }

  // ---------------------------------------------------------------------------------------------
  // The dashboard's state

  /** A status update sent to the store. */
  datatype StatusWrite = StatusWrite(id: string, status: string)

  class Dashboard {
    var requests: seq<Booking>
    var currentUserId: string
    /** Every status update this dashboard has sent to the store, in order. */
    ghost var writes: seq<StatusWrite>

    ghost predicate Valid()
      reads this
    {
      UniqueIds(requests)
    }

    /** The page after its initial load: the bookings on this organizer's events, newest first. */
    constructor Load(userId: string, bookingsData: seq<Booking>)
      requires UniqueIds(bookingsData)
      ensures Valid()
      ensures requests == bookingsData && currentUserId == userId && writes == []
    {
      requests := bookingsData;
      currentUserId := userId;
      writes := [];
    }

    /** Writes the new status whatever the booking's current status; on success the local list
        changes that booking's status only, on failure it is left as it was. */
    method UpdateStatus(id: string, d: Decision, writeError: Option<string>) returns (ok: bool)
      requires Valid()
      modifies this`requests, this`writes
      ensures Valid()
      ensures writes == old(writes) + [StatusWrite(id, Target(d))]
      ensures ok <==> writeError.None?
      ensures ok ==> requests == SetStatus(old(requests), id, Target(d))
      ensures !ok ==> requests == old(requests)
    {
      writes := writes + [StatusWrite(id, Target(d))];
      ok := writeError.None?;
      if ok {
        SetStatusKeepsIds(requests, id, Target(d));
        requests := SetStatus(requests, id, Target(d));
      }
    }

    /** An Approve or Decline button of the request at index `k`, rendered only while it is pending. */
    method Decide(k: nat, d: Decision, writeError: Option<string>) returns (ok: bool)
      requires Valid() && k < |requests| && RequestTile(requests[k].status) == DecisionButtons
      modifies this`requests, this`writes
      ensures Valid()
      ensures writes == old(writes) + [StatusWrite(old(requests[k]).id, Target(d))]
      ensures ok <==> writeError.None?
      ensures ok ==> requests == SetStatus(old(requests), old(requests[k]).id, Target(d))
      ensures |requests| == |old(requests)|
      ensures ok ==> requests[k].status == Target(d)
      ensures forall i :: 0 <= i < |requests| && old(requests[i]).status != PENDING ==>
                requests[i] == old(requests[i])
      ensures ok ==> TotalRevenue(requests) == TotalRevenue(old(requests))
                       + (if d == Approve then AmountValue(old(requests[k]).totalAmount) else 0.0)
      ensures ok ==> PendingCount(requests) == PendingCount(old(requests)) - 1
      ensures ok ==> ApprovedCount(requests)
                       == ApprovedCount(old(requests)) + (if d == Approve then 1 else 0)
      ensures !ok ==> requests == old(requests)
    {
      DecisionKeepsSettled(requests, k, d);
      DecisionEffect(requests, k, d);
      ok := UpdateStatus(requests[k].id, d, writeError);
    }
  }
}
