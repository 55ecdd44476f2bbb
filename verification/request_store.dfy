/** The bounded store of recent exchanges, and the log it refines. */
module RequestStore {
  import opened Text

  /** One side of an exchange; records are opaque here. */
  datatype Part<R, S, T> = RequestPart(request: R) | ResponsePart(response: S) | TimingPart(timing: T)

  datatype Exchange<R, S, T> = Exchange(id: string, request: Option<R>, response: Option<S>, timing: Option<T>)

  datatype Put<R, S, T> = Put(id: string, part: Part<R, S, T>)

  function With<R, S, T>(e: Exchange<R, S, T>, part: Part<R, S, T>): Exchange<R, S, T> {
    match part
    case RequestPart(r) => e.(request := Some(r))
    case ResponsePart(s) => e.(response := Some(s))
    case TimingPart(t) => e.(timing := Some(t))
  }

  // ---- the log ------------------------------------------------------------------------

  /** The last `max` entries. */
  function LastOf<A>(s: seq<A>, max: nat): seq<A> {
    if |s| <= max then s else s[|s| - max..]
  }

  function Ids<R, S, T>(log: seq<Put<R, S, T>>, at: seq<nat>): seq<string>
    requires forall k :: 0 <= k < |at| ==> at[k] < |log|
  {
    seq(|at|, k requires 0 <= k < |at| => log[at[k]].id)
  }

  /** The puts that admitted their id: those whose id was not among the last `max` admitted before. */
  function Admissions<R, S, T>(log: seq<Put<R, S, T>>, max: nat): (at: seq<nat>)
    ensures forall k :: 0 <= k < |at| ==> at[k] < |log|
  {
    if log == [] then []
    else
      var n := |log| - 1;
      var before := Admissions(log[..n], max);
      if log[n].id in Ids(log[..n], LastOf(before, max)) then before else before + [n]
  }

  /** The puts still resident. */
  function Resident<R, S, T>(log: seq<Put<R, S, T>>, max: nat): (at: seq<nat>)
    ensures forall k :: 0 <= k < |at| ==> at[k] < |log|
    ensures |at| <= max
  {
    LastOf(Admissions(log, max), max)
  }

  /** What the puts from `from` on say of an id: the latest of each part. */
  function Latest<R, S, T>(log: seq<Put<R, S, T>>, from: nat, id: string): Exchange<R, S, T>
    requires from <= |log|
    decreases |log|
  {
    if from == |log| then Exchange(id, None, None, None)
    else
      var n := |log| - 1;
      var before := Latest(log[..n], from, id);
      if log[n].id == id then With(before, log[n].part) else before
  }

  // ---- how the log grows -------------------------------------------------------------------

  predicate AllDistinct<A(==)>(s: seq<A>) {
    forall i, j :: 0 <= i < j < |s| ==> s[i] != s[j]
  }

  function KeysOf(queue: seq<string>): set<string> {
    set id | id in queue
  }

  /** A put of a resident id admits nothing. */
  lemma Stays<R, S, T>(log: seq<Put<R, S, T>>, max: nat, put: Put<R, S, T>)
    requires put.id in Ids(log, Resident(log, max))
    ensures Resident(log + [put], max) == Resident(log, max) && Ids(log + [put], Resident(log, max)) == Ids(log, Resident(log, max))
  {
    assert (log + [put])[..|log|] == log;
  }

  lemma IdsSnoc<R, S, T>(log: seq<Put<R, S, T>>, at: seq<nat>, put: Put<R, S, T>, max: nat)
    requires (forall k :: 0 <= k < |at| ==> at[k] < |log|) && max >= 1
    ensures forall k :: 0 <= k < |LastOf<nat>(at + [|log|], max)| ==> LastOf<nat>(at + [|log|], max)[k] < |log| + 1
    ensures Ids(log + [put], LastOf<nat>(at + [|log|], max)) == LastOf(Ids(log, at) + [put.id], max)
  {
    var all: seq<nat>, ids := at + [|log|], Ids(log, at) + [put.id];
    assert forall k :: 0 <= k < |all| ==> (log + [put])[all[k]].id == ids[k];
  }

  lemma AdmissionsSnoc<R, S, T>(log: seq<Put<R, S, T>>, max: nat, put: Put<R, S, T>)
    requires put.id !in Ids(log, LastOf(Admissions(log, max), max))
    ensures Admissions(log + [put], max) == Admissions(log, max) + [|log|]
  {
    assert (log + [put])[..|log|] == log;
    hide LastOf, Ids;
  }

  /** A put of any other id admits it, behind the last `max` admitted. */
  lemma Admits<R, S, T>(log: seq<Put<R, S, T>>, max: nat, put: Put<R, S, T>)
    requires put.id !in Ids(log, Resident(log, max)) && max >= 1
    ensures Resident(log + [put], max) == LastOf<nat>(Resident(log, max) + [|log|], max)
    ensures Ids(log + [put], Resident(log + [put], max)) == LastOf(Ids(log, Resident(log, max)) + [put.id], max)
  {
    hide Admissions, LastOf, Ids;
    AdmissionsSnoc(log, max, put);
    LastOfSnoc<nat>(Admissions(log, max), max, |log|);
    IdsSnoc(log, Resident(log, max), put, max);
  }

  lemma LastOfSnoc<A>(s: seq<A>, max: nat, a: A)
    requires max >= 1
    ensures LastOf(s + [a], max) == LastOf(LastOf(s, max) + [a], max)
  {
  }

  lemma LatestSnoc<R, S, T>(log: seq<Put<R, S, T>>, from: nat, put: Put<R, S, T>, id: string)
    requires from <= |log|
    ensures Latest(log + [put], from, id) == if put.id == id then With(Latest(log, from, id), put.part) else Latest(log, from, id)
  {
    assert (log + [put])[..|log|] == log;
    hide With;
  }

  lemma LatestNothing<R, S, T>(log: seq<Put<R, S, T>>, id: string)
    ensures Latest(log, |log|, id) == Exchange(id, None, None, None)
  {
  }

  // ---- the store ------------------------------------------------------------------------

  /** Every resident exchange is what the puts since its admission say. */
  ghost predicate Shows<R, S, T>(entries: map<string, Exchange<R, S, T>>, log: seq<Put<R, S, T>>, at: seq<nat>)
    requires forall k :: 0 <= k < |at| ==> at[k] < |log|
  {
    forall k :: 0 <= k < |at| ==> log[at[k]].id in entries && entries[log[at[k]].id] == Latest(log, at[k], log[at[k]].id)
  }

  lemma ShowsAttached<R, S, T>(entries: map<string, Exchange<R, S, T>>, log: seq<Put<R, S, T>>, at: seq<nat>, put: Put<R, S, T>)
    requires (forall k :: 0 <= k < |at| ==> at[k] < |log|) && Shows(entries, log, at) && put.id in entries
    ensures Shows(entries[put.id := With(entries[put.id], put.part)], log + [put], at)
  {
    var more := log + [put];
    hide With, Latest;
    forall k | 0 <= k < |at| ensures more[at[k]].id in entries[put.id := With(entries[put.id], put.part)]
      && entries[put.id := With(entries[put.id], put.part)][more[at[k]].id] == Latest(more, at[k], more[at[k]].id) {
      LatestSnoc(log, at[k], put, log[at[k]].id);
    }
  }

  lemma ShowsAdmitted<R, S, T>(entries: map<string, Exchange<R, S, T>>, log: seq<Put<R, S, T>>, at: seq<nat>, put: Put<R, S, T>)
    requires (forall k :: 0 <= k < |at| ==> at[k] < |log|) && Shows(entries, log, at) && put.id !in entries
    ensures Shows(entries[put.id := With(Exchange(put.id, None, None, None), put.part)], log + [put], at + [|log|])
  {
    var more, all, next := log + [put], at + [|log|], entries[put.id := With(Exchange(put.id, None, None, None), put.part)];
    LatestNothing(log, put.id);
    hide With, Latest;
    forall k | 0 <= k < |all| ensures more[all[k]].id in next && next[more[all[k]].id] == Latest(more, all[k], more[all[k]].id) {
      if k < |at| {
        LatestSnoc(log, at[k], put, log[at[k]].id);
      } else {
        LatestSnoc(log, |log|, put, put.id);
      }
    }
  }

  /** Fewer ids and their entries show as well. */
  lemma ShowsPart<R, S, T>(entries: map<string, Exchange<R, S, T>>, fewer: map<string, Exchange<R, S, T>>, log: seq<Put<R, S, T>>, at: seq<nat>, max: nat)
    requires (forall k :: 0 <= k < |at| ==> at[k] < |log|) && Shows(entries, log, at)
    requires fewer.Keys == KeysOf(Ids(log, LastOf(at, max))) && forall id :: id in fewer ==> id in entries && fewer[id] == entries[id]
    ensures Shows(fewer, log, LastOf(at, max))
  {
    var last := LastOf(at, max);
    hide Latest;
    forall k | 0 <= k < |last| ensures log[last[k]].id in fewer && fewer[log[last[k]].id] == Latest(log, last[k], log[last[k]].id) {
      assert Ids(log, last)[k] == log[last[k]].id;
      assert last[k] == at[|at| - |last| + k];
    }
  }

  lemma DropOne<A>(s: seq<A>, n: nat)
    requires n < |s|
    ensures s[n..][1..] == s[n + 1..] && s[n..][0] == s[n]
  {
  }

  lemma OldestLeaves(queue: seq<string>)
    requires queue != [] && AllDistinct(queue)
    ensures KeysOf(queue) - {queue[0]} == KeysOf(queue[1..]) && AllDistinct(queue[1..])
  {
    forall id ensures id in KeysOf(queue[1..]) <==> id in KeysOf(queue) - {queue[0]} {
      if id in queue && id != queue[0] {
        var k :| 0 <= k < |queue| && queue[k] == id;
        assert queue[1..][k - 1] == id;
      }
    }
  }

  lemma DistinctCount(queue: seq<string>)
    requires AllDistinct(queue)
    ensures |KeysOf(queue)| == |queue|
  {
    if queue == [] {
      assert KeysOf(queue) == {};
    } else {
      OldestLeaves(queue);
      DistinctCount(queue[1..]);
      assert queue[0] in KeysOf(queue);
    }
  }

  lemma QueueGrows(queue: seq<string>, id: string)
    requires AllDistinct(queue) && id !in queue
    ensures AllDistinct(queue + [id]) && KeysOf(queue + [id]) == KeysOf(queue) + {id}
  {
  }

  class Store<R, S, T> {
    const max: nat
    var queue: seq<string>
    var entries: map<string, Exchange<R, S, T>>
    ghost var log: seq<Put<R, S, T>>

    /** The queue holds the resident ids, oldest first and each once, and the entries are theirs. */
    ghost predicate Valid()
      reads this
    {
      && max >= 1
      && queue == Ids(log, Resident(log, max)) && AllDistinct(queue)
      && entries.Keys == KeysOf(queue)
      && Shows(entries, log, Resident(log, max))
    }

    constructor (max: int)
      ensures Valid() && log == [] && this.max == if max < 1 then 1 else max
    {
      this.max := if max < 1 then 1 else max;
      queue, entries, log := [], map[], [];
    }

    /** PutRequest, PutResponse and PutTiming: the part on the exchange that is there, or on a new one. */
    method PutPart(id: string, part: Part<R, S, T>)
      requires Valid()
      modifies this
      ensures Valid() && log == old(log) + [Put(id, part)]
    {
      hide Latest, Resident, With, Shows;
      if id in entries {
        Stays(log, max, Put(id, part));
        ShowsAttached(entries, log, Resident(log, max), Put(id, part));
        entries := entries[id := With(entries[id], part)];
        log := log + [Put(id, part)];
      } else {
        Enqueue(id, part);
      }
    }

    /** The oldest leave while the store is over its size. */
    method Evict()
      requires queue != [] && max >= 1 && AllDistinct(queue) && entries.Keys == KeysOf(queue)
      modifies this`queue, this`entries
      ensures queue == LastOf(old(queue), max) && AllDistinct(queue) && entries.Keys == KeysOf(queue)
      ensures forall i :: i in entries ==> i in old(entries) && entries[i] == old(entries)[i]
    {
      ghost var all, full := queue, entries;
      while |queue| > max
        invariant 1 <= |queue| <= |all| && queue == all[|all| - |queue|..] && (|queue| == |all| || |queue| >= max)
        invariant AllDistinct(queue) && entries.Keys == KeysOf(queue)
        invariant forall i :: i in entries ==> i in full && entries[i] == full[i]
      {
        OldestLeaves(queue);
        DropOne(all, |all| - |queue|);
        var oldest := queue[0];
        queue := queue[1..];
        entries := entries - {oldest};
      }
    }

    /** A new exchange at the back of the queue. */
    method Enqueue(id: string, part: Part<R, S, T>)
      requires Valid() && id !in entries
      modifies this
      ensures Valid() && log == old(log) + [Put(id, part)]
    {
      hide Latest, Resident, With, Shows, Ids, LastOf;
      ghost var put, at: seq<nat> := Put(id, part), Resident(log, max) + [|log|];
      Admits(log, max, put);
      ShowsAdmitted(entries, log, Resident(log, max), put);
      QueueGrows(queue, id);
      entries := entries[id := With(Exchange(id, None, None, None), part)];
      queue := queue + [id];
      log := log + [put];
      ghost var full := entries;
      Evict();
      ShowsPart(full, entries, log, at, max);
    }

    method Get(id: string) returns (r: Option<Exchange<R, S, T>>)
      requires Valid()
      ensures r.Some? <==> id in Ids(log, Resident(log, max))
      ensures forall k :: 0 <= k < |Resident(log, max)| && log[Resident(log, max)[k]].id == id ==> r == Some(Latest(log, Resident(log, max)[k], id))
    {
      hide Latest, Resident;
      r := if id in entries then Some(entries[id]) else None;
    }

    method Len() returns (n: nat)
      requires Valid()
      ensures n == |Resident(log, max)| <= max
    {
      DistinctCount(queue);
      hide Latest, Shows;
      n := |entries|;
      assert |entries| == |entries.Keys|;
    }

    method Clear()
      requires Valid()
      modifies this
      ensures Valid() && log == []
    {
      queue, entries, log := [], map[], [];
    }
  }

  // ---- what the log says of itself -----------------------------------------------------------

  lemma LastStayDistinct(ids: seq<string>, max: nat)
    requires AllDistinct(ids)
    ensures AllDistinct(LastOf(ids, max))
  {
  }

  /** Resident ids are distinct: an id admitted again was forgotten first. */
  lemma {:induction false} ResidentDistinct<R, S, T>(log: seq<Put<R, S, T>>, max: nat)
    requires max >= 1
    ensures AllDistinct(Ids(log, Resident(log, max)))
    decreases |log|
  {
    if log != [] {
      var n := |log| - 1;
      var before, put := log[..n], log[n];
      assert log == before + [put];
      ResidentDistinct(before, max);
      hide *;
      var was := Ids(before, Resident(before, max));
      if put.id in was {
        Stays(before, max, put);
      } else {
        Admits(before, max, put);
        QueueGrows(was, put.id);
        LastStayDistinct(was + [put.id], max);
      }
    }
  }

  /** The id put last is resident, the last `min(max, n)` admissions are, and nothing else is. */
  lemma LastPutIsResident<R, S, T>(log: seq<Put<R, S, T>>, max: nat)
    requires max >= 1 && log != []
    ensures log[|log| - 1].id in Ids(log, Resident(log, max))
    ensures |Resident(log, max)| == (if |Admissions(log, max)| <= max then |Admissions(log, max)| else max)
  {
    var n := |log| - 1;
    var before, put := log[..n], log[n];
    assert log == before + [put];
    if put.id in Ids(before, Resident(before, max)) {
      Stays(before, max, put);
    } else {
      Admits(before, max, put);
      var ids := Ids(log, Resident(log, max));
      assert ids[|ids| - 1] == put.id;
    }
  }

  // ---- what an exchange shows -------------------------------------------------------------------

  predicate GivesRequest<R, S, T>(p: Put<R, S, T>, id: string) {
    p.id == id && p.part.RequestPart?
  }

  predicate GivesResponse<R, S, T>(p: Put<R, S, T>, id: string) {
    p.id == id && p.part.ResponsePart?
  }

  predicate GivesTiming<R, S, T>(p: Put<R, S, T>, id: string) {
    p.id == id && p.part.TimingPart?
  }

  /** Put `k` is the last of its kind for this id since `from`. */
  predicate LastRequest<R, S, T>(log: seq<Put<R, S, T>>, from: nat, id: string, k: nat) {
    from <= k < |log| && GivesRequest(log[k], id) && forall j :: k < j < |log| ==> !GivesRequest(log[j], id)
  }

  /** The request is the one put last for this id since `from`, or none when none was. */
  ghost predicate RequestIsLast<R, S, T>(e: Exchange<R, S, T>, log: seq<Put<R, S, T>>, from: nat, id: string) {
    && (e.request.None? ==> forall k :: from <= k < |log| ==> !GivesRequest(log[k], id))
    && (e.request.Some? ==> exists k: nat :: LastRequest(log, from, id, k) && log[k].part.request == e.request.value)
  }

  predicate LastResponse<R, S, T>(log: seq<Put<R, S, T>>, from: nat, id: string, k: nat) {
    from <= k < |log| && GivesResponse(log[k], id) && forall j :: k < j < |log| ==> !GivesResponse(log[j], id)
  }

  ghost predicate ResponseIsLast<R, S, T>(e: Exchange<R, S, T>, log: seq<Put<R, S, T>>, from: nat, id: string) {
    && (e.response.None? ==> forall k :: from <= k < |log| ==> !GivesResponse(log[k], id))
    && (e.response.Some? ==> exists k: nat :: LastResponse(log, from, id, k) && log[k].part.response == e.response.value)
  }

  predicate LastTiming<R, S, T>(log: seq<Put<R, S, T>>, from: nat, id: string, k: nat) {
    from <= k < |log| && GivesTiming(log[k], id) && forall j :: k < j < |log| ==> !GivesTiming(log[j], id)
  }

  ghost predicate TimingIsLast<R, S, T>(e: Exchange<R, S, T>, log: seq<Put<R, S, T>>, from: nat, id: string) {
    && (e.timing.None? ==> forall k :: from <= k < |log| ==> !GivesTiming(log[k], id))
    && (e.timing.Some? ==> exists k: nat :: LastTiming(log, from, id, k) && log[k].part.timing == e.timing.value)
  }

  lemma RequestMore<R, S, T>(e: Exchange<R, S, T>, log: seq<Put<R, S, T>>, from: nat, put: Put<R, S, T>, id: string)
    requires from <= |log| && RequestIsLast(e, log, from, id)
    ensures var n := if put.id == id then With(e, put.part) else e; RequestIsLast(n, log + [put], from, id)
  {
    var n, more := if put.id == id then With(e, put.part) else e, log + [put];
    if GivesRequest(put, id) {
      assert LastRequest(more, from, id, |log|) && more[|log|].part.request == n.request.value;
    } else if e.request.Some? {
      var k: nat :| LastRequest(log, from, id, k) && log[k].part.request == e.request.value;
      assert LastRequest(more, from, id, k) && more[k] == log[k];
    }
  }

  lemma ResponseMore<R, S, T>(e: Exchange<R, S, T>, log: seq<Put<R, S, T>>, from: nat, put: Put<R, S, T>, id: string)
    requires from <= |log| && ResponseIsLast(e, log, from, id)
    ensures var n := if put.id == id then With(e, put.part) else e; ResponseIsLast(n, log + [put], from, id)
  {
    var n, more := if put.id == id then With(e, put.part) else e, log + [put];
    if GivesResponse(put, id) {
      assert LastResponse(more, from, id, |log|) && more[|log|].part.response == n.response.value;
    } else if e.response.Some? {
      var k: nat :| LastResponse(log, from, id, k) && log[k].part.response == e.response.value;
      assert LastResponse(more, from, id, k) && more[k] == log[k];
    }
  }

  lemma TimingMore<R, S, T>(e: Exchange<R, S, T>, log: seq<Put<R, S, T>>, from: nat, put: Put<R, S, T>, id: string)
    requires from <= |log| && TimingIsLast(e, log, from, id)
    ensures var n := if put.id == id then With(e, put.part) else e; TimingIsLast(n, log + [put], from, id)
  {
    var n, more := if put.id == id then With(e, put.part) else e, log + [put];
    if GivesTiming(put, id) {
      assert LastTiming(more, from, id, |log|) && more[|log|].part.timing == n.timing.value;
    } else if e.timing.Some? {
      var k: nat :| LastTiming(log, from, id, k) && log[k].part.timing == e.timing.value;
      assert LastTiming(more, from, id, k) && more[k] == log[k];
    }
  }

  /** An exchange shows, of each of its three parts, the one put last since it was admitted, and no part that was not. */
  lemma {:induction false} ShowsTheLastParts<R, S, T>(log: seq<Put<R, S, T>>, from: nat, id: string)
    requires from <= |log|
    ensures var e := Latest(log, from, id);
      e.id == id && RequestIsLast(e, log, from, id) && ResponseIsLast(e, log, from, id) && TimingIsLast(e, log, from, id)
    decreases |log|
  {
    if from < |log| {
      var n := |log| - 1;
      var before, put := log[..n], log[n];
      assert log == before + [put];
      ShowsTheLastParts(before, from, id);
      var e := Latest(before, from, id);
      RequestMore(e, before, from, put, id);
      ResponseMore(e, before, from, put, id);
      TimingMore(e, before, from, put, id);
      hide RequestIsLast, ResponseIsLast, TimingIsLast;
    }
  }
}
