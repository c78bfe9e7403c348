/**
 * The batch dispatcher of sender/main.go: Handler.Handle receives one batch of
 * queued messages, posts each message body to the WebSocket connection named by
 * its "connectionId" attribute, and reports the IDs of the messages that were
 * not delivered so that the queue hands them out again.
 *
 * The push channel is an oracle: `pushes[i]` is the answer to the post of
 * record i (a failure, or success together with the clock reading the handler
 * takes right after it). Instants are nanoseconds counted from Go's zero time,
 * which is what ctx.Deadline() yields when there is no deadline.
 *
 * The cutoff comes in two readings. `AsWritten` is the code: the deadline plus
 * five seconds (sender/main.go:50). `Intended` is what the comment above it
 * says: leave five seconds before the deadline.
 */
module Sender {
  import opened Wrappers

  datatype MessageAttribute = MessageAttribute(stringValue: Option<string>)

  /** One SQS record of the batch. */
  datatype Message = Message(messageId: string, messageAttributes: map<string, MessageAttribute>, body: string)

  /** The answer of PostToConnection for one record, and, on success, the time.Now() reading after it. */
  datatype Push = PostFailed | Posted(now: int)

  /** The arguments of one PostToConnection call. */
  datatype PostCall = PostCall(connectionId: string, data: string)

  datatype CutoffRule = AsWritten | Intended

  const ConnectionIdAttribute: string := "connectionId"

  const SafetyMarginNs: int := 5_000_000_000

  /** The zero time.Time, returned by ctx.Deadline() when the context has no deadline. */
  const ZeroTime: int := 0

  /** What ctx.Deadline() yields: the deadline, or the zero time when there is none. */
  function DeadlineOf(deadline: Option<int>): int
  {
    if deadline.Some? then deadline.value else ZeroTime
  }

  /**
   * The instant after which the loop stops (sender/main.go:49-50): five seconds
   * from the deadline, after it as written and before it as the comment intends.
   */
  function Cutoff(rule: CutoffRule, deadline: Option<int>): (c: int)
    ensures rule == AsWritten <==> c > DeadlineOf(deadline)
    ensures c - DeadlineOf(deadline) == SafetyMarginNs || DeadlineOf(deadline) - c == SafetyMarginNs
  {
    var d := DeadlineOf(deadline);
    match rule
    case AsWritten => d + SafetyMarginNs
    case Intended => d - SafetyMarginNs
  }

  /** The connection ID a record is addressed to: absent without the attribute or with a nil value. */
  function ConnectionIdOf(m: Message): (id: Option<string>)
    ensures id.Some? <==>
      ConnectionIdAttribute in m.messageAttributes && m.messageAttributes[ConnectionIdAttribute].stringValue.Some?
    ensures id.Some? ==> id == m.messageAttributes[ConnectionIdAttribute].stringValue
  {
    if ConnectionIdAttribute in m.messageAttributes then m.messageAttributes[ConnectionIdAttribute].stringValue
    else None
  }

  /** Record i was posted and the post succeeded. */
  predicate Delivered(records: seq<Message>, pushes: seq<Push>, i: nat)
    requires i < |records| == |pushes|
  {
    ConnectionIdOf(records[i]).Some? && pushes[i].Posted?
  }

  /** Record i is where the loop breaks: a successful post observed after the cutoff. */
  predicate StopsAt(rule: CutoffRule, deadline: Option<int>, records: seq<Message>, pushes: seq<Push>, i: nat)
    requires i < |records| == |pushes|
  {
    Delivered(records, pushes, i) && pushes[i].now > Cutoff(rule, deadline)
  }

  /** How many records the loop visits when it starts at record j. */
  function VisitedFrom(rule: CutoffRule, deadline: Option<int>, records: seq<Message>, pushes: seq<Push>, j: nat): (n: nat)
    requires j <= |records| == |pushes|
    ensures j <= n <= |records|
    decreases |records| - j
  {
    if j == |records| then j
    else if StopsAt(rule, deadline, records, pushes, j) then j + 1
    else VisitedFrom(rule, deadline, records, pushes, j + 1)
  }

  function Visited(rule: CutoffRule, deadline: Option<int>, records: seq<Message>, pushes: seq<Push>): nat
    requires |records| == |pushes|
  {
    VisitedFrom(rule, deadline, records, pushes, 0)
  }

  /** Some record among the first n carries `id` and was delivered. */
  ghost predicate DeliveredId(records: seq<Message>, pushes: seq<Push>, n: nat, id: string)
    requires n <= |records| == |pushes|
  {
    exists i :: 0 <= i < n && records[i].messageId == id && Delivered(records, pushes, i)
  }

  /** The IDs of the batch none of whose records was delivered among the visited ones. */
  ghost function Redelivery(rule: CutoffRule, deadline: Option<int>, records: seq<Message>, pushes: seq<Push>): set<string>
    requires |records| == |pushes|
  {
    var n := Visited(rule, deadline, records, pushes);
    set i | 0 <= i < |records| && !DeliveredId(records, pushes, n, records[i].messageId) :: records[i].messageId
  }

  /** The posts made for the first n records, in order: one for each record that has a connection ID. */
  function Posts(records: seq<Message>, n: nat): seq<PostCall>
    requires n <= |records|
  {
    if n == 0 then []
    else
      var m := records[n - 1];
      Posts(records, n - 1) + (if ConnectionIdOf(m).Some? then [PostCall(ConnectionIdOf(m).value, m.body)] else [])
  }

  /** The message IDs of the batch. */
  ghost function MessageIds(records: seq<Message>): set<string>
  {
    set i | 0 <= i < |records| :: records[i].messageId
  }

  /**
   * Handler.Handle. `configLoadFailed` says whether LoadDefaultConfig fails, in
   * which case the handler returns the error with an empty response. The report
   * is the BatchItemFailures list, whose order Go leaves to map iteration.
   */
  method Handle(rule: CutoffRule, configLoadFailed: bool, deadline: Option<int>, records: seq<Message>, pushes: seq<Push>)
    returns (batchItemFailures: seq<string>, posts: seq<PostCall>, failed: bool)
    requires |pushes| == |records|
    ensures failed == configLoadFailed
    ensures failed ==> batchItemFailures == [] && posts == []
    ensures !failed ==> forall id :: id in batchItemFailures <==> id in Redelivery(rule, deadline, records, pushes)
    ensures forall i, j :: 0 <= i < j < |batchItemFailures| ==> batchItemFailures[i] != batchItemFailures[j]
    ensures !failed ==> posts == Posts(records, Visited(rule, deadline, records, pushes))
  {
    if configLoadFailed {
      return [], [], true;
    }
    failed := false;
    var processed := InitFlags(records);
    processed, posts := Dispatch(rule, deadline, records, pushes, processed);
    batchItemFailures := Failures(processed);
    RedeliveryMembers(rule, deadline, records, pushes);
  }

  /** The flag map of sender/main.go:53-56: every message ID of the batch, not yet processed. */
  method InitFlags(records: seq<Message>) returns (processed: map<string, bool>)
    ensures processed.Keys == MessageIds(records)
    ensures forall id :: id in processed ==> !processed[id]
  {
    processed := map[];
    for i := 0 to |records|
      invariant processed.Keys == set j | 0 <= j < i :: records[j].messageId
      invariant forall id :: id in processed ==> !processed[id]
    {
      processed := processed[records[i].messageId := false];
    }
  }

  /**
   * The dispatch loop of sender/main.go:59-84: it visits the records in order,
   * posts each addressed one, flags its ID on success, and breaks after a
   * success observed later than the cutoff.
   */
  method Dispatch(rule: CutoffRule, deadline: Option<int>, records: seq<Message>, pushes: seq<Push>,
                  flags: map<string, bool>)
    returns (processed: map<string, bool>, posts: seq<PostCall>)
    requires |pushes| == |records|
    requires flags.Keys == MessageIds(records)
    requires forall id :: id in flags ==> !flags[id]
    ensures processed.Keys == MessageIds(records)
    ensures forall id :: id in processed ==>
      (processed[id] <==> DeliveredId(records, pushes, Visited(rule, deadline, records, pushes), id))
    ensures posts == Posts(records, Visited(rule, deadline, records, pushes))
  {
    var cutoff := Cutoff(rule, deadline);
    processed := flags;
    ghost var visited, stopped := |records|, false;
    posts := [];
    for i := 0 to |records|
      invariant processed.Keys == MessageIds(records)
      invariant forall id :: id in processed ==> (processed[id] <==> DeliveredId(records, pushes, i, id))
      invariant forall j :: 0 <= j < i ==> !StopsAt(rule, deadline, records, pushes, j)
      invariant posts == Posts(records, i)
    {
      var rec := records[i];
      NextRecord(records, pushes, i);
      if ConnectionIdAttribute !in rec.messageAttributes {
        continue;
      }
      var connectionId := rec.messageAttributes[ConnectionIdAttribute].stringValue;
      if connectionId.None? {
        continue;
      }
      posts := posts + [PostCall(connectionId.value, rec.body)];
      if pushes[i].PostFailed? {
        continue;
      }
      assert rec.messageId in MessageIds(records);
      processed := processed[rec.messageId := true];
      if pushes[i].now > cutoff {
        visited, stopped := i + 1, true;
        VisitedFirstStop(rule, deadline, records, pushes, 0, i);
        assert forall id :: id in processed ==> (processed[id] <==> DeliveredId(records, pushes, visited, id));
        assert posts == Posts(records, visited);
        break;
      }
    }
    if !stopped {
      VisitedNoStop(rule, deadline, records, pushes, 0);
    }
    assert visited == Visited(rule, deadline, records, pushes);
  }

  /** The report loop of sender/main.go:87-94: every ID whose flag is still false, each once. */
  method Failures(processed: map<string, bool>) returns (batchItemFailures: seq<string>)
    ensures forall id :: id in batchItemFailures <==> id in processed && !processed[id]
    ensures forall i, j :: 0 <= i < j < |batchItemFailures| ==> batchItemFailures[i] != batchItemFailures[j]
  {
    batchItemFailures := [];
    var remaining := processed.Keys;
    while remaining != {}
      invariant remaining <= processed.Keys
      invariant forall id :: id in batchItemFailures <==> id in processed && id !in remaining && !processed[id]
      invariant forall i, j :: 0 <= i < j < |batchItemFailures| ==> batchItemFailures[i] != batchItemFailures[j]
      decreases remaining
    {
      var messageId :| messageId in remaining;
      remaining := remaining - {messageId};
      if processed[messageId] {
        continue;
      }
      batchItemFailures := batchItemFailures + [messageId];
    }
  }

  /** One more record: what the first i + 1 records have delivered and posted, in terms of the first i. */
  lemma NextRecord(records: seq<Message>, pushes: seq<Push>, i: nat)
    requires i < |records| == |pushes|
    ensures forall id :: DeliveredId(records, pushes, i + 1, id) <==>
      DeliveredId(records, pushes, i, id) || (records[i].messageId == id && Delivered(records, pushes, i))
    ensures Posts(records, i + 1) == Posts(records, i) +
      (if ConnectionIdOf(records[i]).Some? then [PostCall(ConnectionIdOf(records[i]).value, records[i].body)] else [])
  {
    forall id | DeliveredId(records, pushes, i + 1, id)
      ensures DeliveredId(records, pushes, i, id) || (records[i].messageId == id && Delivered(records, pushes, i))
    {
      var j :| 0 <= j < i + 1 && records[j].messageId == id && Delivered(records, pushes, j);
      if j < i {
        assert DeliveredId(records, pushes, i, id);
      }
    }
  }

  /** The loop ends right after the first record at which it stops. */
  lemma {:induction false} VisitedFirstStop(rule: CutoffRule, deadline: Option<int>, records: seq<Message>,
                                            pushes: seq<Push>, j: nat, i: nat)
    requires j <= i < |records| == |pushes|
    requires forall k :: j <= k < i ==> !StopsAt(rule, deadline, records, pushes, k)
    requires StopsAt(rule, deadline, records, pushes, i)
    ensures VisitedFrom(rule, deadline, records, pushes, j) == i + 1
    decreases i - j
  {
    if j < i {
      VisitedFirstStop(rule, deadline, records, pushes, j + 1, i);
    }
  }

  /** Without a record at which it stops, the loop visits the whole batch. */
  lemma {:induction false} VisitedNoStop(rule: CutoffRule, deadline: Option<int>, records: seq<Message>,
                                         pushes: seq<Push>, j: nat)
    requires j <= |records| == |pushes|
    requires forall k :: j <= k < |records| ==> !StopsAt(rule, deadline, records, pushes, k)
    ensures VisitedFrom(rule, deadline, records, pushes, j) == |records|
    decreases |records| - j
  {
    if j < |records| {
      VisitedNoStop(rule, deadline, records, pushes, j + 1);
    }
  }

  /** An ID is reported exactly when some record carries it and no visited record carrying it was delivered. */
  lemma RedeliveryMembers(rule: CutoffRule, deadline: Option<int>, records: seq<Message>, pushes: seq<Push>)
    requires |records| == |pushes|
    ensures forall id :: id in Redelivery(rule, deadline, records, pushes) <==>
      (exists i :: 0 <= i < |records| && records[i].messageId == id)
      && !DeliveredId(records, pushes, Visited(rule, deadline, records, pushes), id)
  {
  }

  /**
   * The loop stops right after the first successful post observed later than
   * the cutoff: no earlier record stops it, and if it leaves records unvisited
   * the last visited one is where it stopped.
   */
  lemma {:induction false} VisitedStopsAtFirstLateSuccess(rule: CutoffRule, deadline: Option<int>,
                                                          records: seq<Message>, pushes: seq<Push>, j: nat)
    requires j <= |records| == |pushes|
    ensures var n := VisitedFrom(rule, deadline, records, pushes, j);
      && (forall k :: j <= k < n - 1 ==> !StopsAt(rule, deadline, records, pushes, k))
      && (n < |records| ==> j < n && StopsAt(rule, deadline, records, pushes, n - 1))
    decreases |records| - j
  {
    if j < |records| && !StopsAt(rule, deadline, records, pushes, j) {
      VisitedStopsAtFirstLateSuccess(rule, deadline, records, pushes, j + 1);
    }
  }

  /** A record whose ID was delivered is not reported, whatever happens to other records with that ID. */
  lemma DeliveredNotReported(rule: CutoffRule, deadline: Option<int>, records: seq<Message>, pushes: seq<Push>, i: nat)
    requires |records| == |pushes|
    requires i < Visited(rule, deadline, records, pushes)
    requires Delivered(records, pushes, i)
    ensures records[i].messageId !in Redelivery(rule, deadline, records, pushes)
  {
    RedeliveryMembers(rule, deadline, records, pushes);
    assert DeliveredId(records, pushes, Visited(rule, deadline, records, pushes), records[i].messageId);
  }

  /** Each ID occurs on exactly one record of the batch. */
  predicate DistinctIds(records: seq<Message>)
  {
    forall i, j :: 0 <= i < j < |records| ==> records[i].messageId != records[j].messageId
  }

  /**
   * A record without a connection ID gets no post and does not stop the loop,
   * and a record whose post fails does not stop it either; with distinct IDs,
   * both are reported.
   */
  lemma UndeliveredRecordReported(rule: CutoffRule, deadline: Option<int>, records: seq<Message>, pushes: seq<Push>, i: nat)
    requires i < |records| == |pushes|
    requires DistinctIds(records)
    requires ConnectionIdOf(records[i]).None? || pushes[i] == PostFailed
    ensures !StopsAt(rule, deadline, records, pushes, i)
    ensures ConnectionIdOf(records[i]).None? ==> Posts(records, i + 1) == Posts(records, i)
    ensures records[i].messageId in Redelivery(rule, deadline, records, pushes)
  {
    RedeliveryMembers(rule, deadline, records, pushes);
    assert forall j :: 0 <= j < |records| && records[j].messageId == records[i].messageId ==> j == i;
    assert !Delivered(records, pushes, i);
  }

  /**
   * Once the loop has stopped at record k, every later record of a batch with
   * distinct IDs is reported, whatever its own outcome would have been.
   */
  lemma LateRecordsReported(rule: CutoffRule, deadline: Option<int>, records: seq<Message>, pushes: seq<Push>, k: nat)
    requires k < |records| == |pushes|
    requires DistinctIds(records)
    requires forall j :: 0 <= j < k ==> !StopsAt(rule, deadline, records, pushes, j)
    requires StopsAt(rule, deadline, records, pushes, k)
    ensures Visited(rule, deadline, records, pushes) == k + 1
    ensures forall j :: k < j < |records| ==> records[j].messageId in Redelivery(rule, deadline, records, pushes)
  {
    VisitedFirstStop(rule, deadline, records, pushes, 0, k);
    RedeliveryMembers(rule, deadline, records, pushes);
    forall j | k < j < |records| ensures records[j].messageId in Redelivery(rule, deadline, records, pushes) {
      assert forall i :: 0 <= i < k + 1 ==> records[i].messageId != records[j].messageId;
    }
  }

  /**
   * A batch in which every record has a connection ID and every post succeeds
   * no later than the cutoff is visited whole, posts each record's body to its
   * connection in order, and produces an empty report.
   */
  lemma PunctualBatchDelivered(rule: CutoffRule, deadline: Option<int>, records: seq<Message>, pushes: seq<Push>)
    requires |records| == |pushes|
    requires forall i :: 0 <= i < |records| ==> ConnectionIdOf(records[i]).Some?
    requires forall i :: 0 <= i < |pushes| ==> pushes[i].Posted? && pushes[i].now <= Cutoff(rule, deadline)
    ensures Visited(rule, deadline, records, pushes) == |records|
    ensures Redelivery(rule, deadline, records, pushes) == {}
    ensures var posts := Posts(records, |records|);
      && |posts| == |records|
      && forall i :: 0 <= i < |records| ==> posts[i] == PostCall(ConnectionIdOf(records[i]).value, records[i].body)
  {
    VisitedNoStop(rule, deadline, records, pushes, 0);
    RedeliveryMembers(rule, deadline, records, pushes);
    forall id | id in Redelivery(rule, deadline, records, pushes) ensures false {
      var i :| 0 <= i < |records| && records[i].messageId == id;
      assert Delivered(records, pushes, i);
    }
    PostsOfAddressed(records, |records|);
  }

  lemma {:induction false} PostsOfAddressed(records: seq<Message>, n: nat)
    requires n <= |records|
    requires forall i :: 0 <= i < n ==> ConnectionIdOf(records[i]).Some?
    ensures |Posts(records, n)| == n
    ensures forall i :: 0 <= i < n ==> Posts(records, n)[i] == PostCall(ConnectionIdOf(records[i]).value, records[i].body)
  {
    if n > 0 {
      PostsOfAddressed(records, n - 1);
    }
  }

  /** Every successful post before the last visited record was observed no later than the cutoff. */
  lemma EarlierSuccessesWithinCutoff(rule: CutoffRule, deadline: Option<int>, records: seq<Message>, pushes: seq<Push>)
    requires |records| == |pushes|
    ensures forall i :: 0 <= i < Visited(rule, deadline, records, pushes) - 1 && Delivered(records, pushes, i) ==>
      pushes[i].now <= Cutoff(rule, deadline)
  {
    VisitedStopsAtFirstLateSuccess(rule, deadline, records, pushes, 0);
    forall i | 0 <= i < Visited(rule, deadline, records, pushes) - 1 && Delivered(records, pushes, i)
      ensures pushes[i].now <= Cutoff(rule, deadline)
    {
      assert !StopsAt(rule, deadline, records, pushes, i);
    }
  }

  /** As written, the cutoff lies five seconds after the deadline; the comment's cutoff lies five seconds before it. */
  lemma CutoffAgainstDeadline(d: int)
    ensures Cutoff(AsWritten, Some(d)) - d == SafetyMarginNs
    ensures d - Cutoff(Intended, Some(d)) == SafetyMarginNs
    ensures Cutoff(AsWritten, Some(d)) > d > Cutoff(Intended, Some(d))
  {
  }

  /**
   * With the intended cutoff, every successful post that the loop followed with
   * further work was observed at least five seconds before the deadline.
   */
  lemma IntendedLeavesMargin(d: int, records: seq<Message>, pushes: seq<Push>)
    requires |records| == |pushes|
    ensures forall i :: 0 <= i < Visited(Intended, Some(d), records, pushes) - 1 && Delivered(records, pushes, i) ==>
      pushes[i].now <= d - SafetyMarginNs
  {
    EarlierSuccessesWithinCutoff(Intended, Some(d), records, pushes);
  }

  /** The record addressed to connection c with body b. */
  function Addressed(id: string, c: string, b: string): Message
  {
    Message(id, map[ConnectionIdAttribute := MessageAttribute(Some(c))], b)
  }

  /**
   * As written, a post that succeeds one second after the deadline does not stop
   * the loop: the next record is still posted. With the intended cutoff the loop
   * stops there and reports the second record.
   */
  lemma AsWrittenPostsPastDeadline()
    ensures var d := 10 * SafetyMarginNs;
      var records := [Addressed("m1", "c1", "a"), Addressed("m2", "c2", "b")];
      var pushes := [Posted(d + 1_000_000_000), Posted(d + 2_000_000_000)];
      && Visited(AsWritten, Some(d), records, pushes) == 2
      && |Posts(records, Visited(AsWritten, Some(d), records, pushes))| == 2
      && Redelivery(AsWritten, Some(d), records, pushes) == {}
      && Visited(Intended, Some(d), records, pushes) == 1
      && Redelivery(Intended, Some(d), records, pushes) == {"m2"}
  {
    var d := 10 * SafetyMarginNs;
    var records := [Addressed("m1", "c1", "a"), Addressed("m2", "c2", "b")];
    var pushes := [Posted(d + 1_000_000_000), Posted(d + 2_000_000_000)];
    assert ConnectionIdOf(records[0]) == Some("c1");
    assert ConnectionIdOf(records[1]) == Some("c2");
    assert Visited(AsWritten, Some(d), records, pushes) == 2;
    assert Visited(Intended, Some(d), records, pushes) == 1;
    RedeliveryMembers(AsWritten, Some(d), records, pushes);
    RedeliveryMembers(Intended, Some(d), records, pushes);
    assert DeliveredId(records, pushes, 2, "m1") && DeliveredId(records, pushes, 2, "m2");
    assert DeliveredId(records, pushes, 1, "m1");
    assert !DeliveredId(records, pushes, 1, "m2");
    assert records[1].messageId == "m2";
  }

  /**
   * Without a deadline the cutoff is five seconds after Go's zero time, so any
   * realistic reading is past it and the loop stops right after the first
   * successful post.
   */
  lemma NoDeadlineStopsAtFirstSuccess(records: seq<Message>, pushes: seq<Push>, k: nat)
    requires k < |records| == |pushes|
    requires forall i :: 0 <= i < |pushes| && pushes[i].Posted? ==> pushes[i].now > ZeroTime + SafetyMarginNs
    requires forall j :: 0 <= j < k ==> !Delivered(records, pushes, j)
    requires Delivered(records, pushes, k)
    ensures Visited(AsWritten, None, records, pushes) == k + 1
  {
    VisitedFirstStop(AsWritten, None, records, pushes, 0, k);
  }

  /**
   * Three records: the first is delivered in time, the second's post fails, the
   * third has no connection ID attribute. The report is exactly the second and
   * third.
   */
  lemma ThreeMessageBatch(rule: CutoffRule, deadline: Option<int>, t: int)
    requires t <= Cutoff(rule, deadline)
    ensures var records := [Addressed("m1", "c1", "a"), Addressed("m2", "c2", "b"), Message("m3", map[], "c")];
      var pushes := [Posted(t), PostFailed, Posted(t)];
      && Redelivery(rule, deadline, records, pushes) == {"m2", "m3"}
      && Posts(records, Visited(rule, deadline, records, pushes)) == [PostCall("c1", "a"), PostCall("c2", "b")]
  {
    var records := [Addressed("m1", "c1", "a"), Addressed("m2", "c2", "b"), Message("m3", map[], "c")];
    var pushes := [Posted(t), PostFailed, Posted(t)];
    assert ConnectionIdOf(records[0]) == Some("c1");
    assert ConnectionIdOf(records[1]) == Some("c2");
    assert ConnectionIdOf(records[2]) == None;
    assert Visited(rule, deadline, records, pushes) == 3;
    RedeliveryMembers(rule, deadline, records, pushes);
    assert DeliveredId(records, pushes, 3, "m1");
    assert !DeliveredId(records, pushes, 3, "m2");
    assert !DeliveredId(records, pushes, 3, "m3");
    assert records[1].messageId == "m2" && records[2].messageId == "m3";
    assert Posts(records, 1) == [PostCall("c1", "a")];
  }
}
