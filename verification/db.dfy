/**
 * The topic-connection registry of db/db.go.
 *
 * Every subscription is one record keyed by ("topic/" + topic, timestamp + "/" +
 * connection ID). The storage is modelled as a map from keys to records written
 * by blind upserts; what the storage does on each call (a write error, which
 * items of a bulk write it leaves unprocessed, how a query is split into pages)
 * is an oracle given to the operations, and so are the clock and the encoder.
 */
module Db {
  import opened Wrappers
  import DateLayout
  import Backoff

  /** A reading of the clock: the broken-down UTC fields and the Unix seconds of the same instant. */
  datatype Time = Time(utc: DateLayout.DateTime, unix: int)

  /** maxConnectionDuration: two hours and fifteen minutes, in seconds. */
  const MaxConnectionDurationSeconds: int := 2 * 60 * 60 + 15 * 60

  const TopicPrefix: string := "topic/"

  /** The ceiling BatchPut gives its backoff generator. */
  const MaxBatchRetries: nat := 5

  datatype DbError = EncodingError | StoreUnavailable | BackoffExhausted | DecodingError

  /** topicConnectionRecord. */
  datatype Record = Record(pk: string, sk: string, ttl: int, topic: string, connectionId: string)

  /** newTopicConnectionRecord. */
  function NewRecord(topic: string, connectionId: string, now: Time): (r: Record)
    ensures TopicPrefix <= r.pk && r.pk[|TopicPrefix|..] == topic
    ensures r.ttl - now.unix == 8100
    ensures r.topic == topic && r.connectionId == connectionId
  {
    Record(TopicPrefix + topic,
           DateLayout.Format(now.utc) + "/" + connectionId,
           now.unix + MaxConnectionDurationSeconds,
           topic,
           connectionId)
  }

  /**
   * For years 0..9999 the sort key is the fourteen-digit timestamp, a slash and
   * the connection ID: its first fourteen characters parse back to the time and
   * dropping the first fifteen recovers the connection ID.
   */
  lemma SortKeyLayout(topic: string, connectionId: string, now: Time)
    requires 0 <= now.utc.year <= 9999
    ensures var sk := NewRecord(topic, connectionId, now).sk;
      && |sk| == 15 + |connectionId|
      && DateLayout.Parse(sk[..14]) == Some(now.utc)
      && sk[14] == '/'
      && sk[15..] == connectionId
  {
    DateLayout.ParseFormat(now.utc);
    var ts := DateLayout.Format(now.utc);
    var sk := NewRecord(topic, connectionId, now).sk;
    assert sk == ts + "/" + connectionId;
    assert sk[..14] == ts;
  }

  /**
   * Two records of one topic share a sort key only when they were made for the
   * same connection in the same second: distinct connections never collide.
   */
  lemma SortKeyDistinguishes(topic: string, c1: string, c2: string, t1: Time, t2: Time)
    requires 0 <= t1.utc.year <= 9999 && 0 <= t2.utc.year <= 9999
    requires NewRecord(topic, c1, t1).sk == NewRecord(topic, c2, t2).sk
    ensures c1 == c2 && t1.utc == t2.utc
  {
    SortKeyLayout(topic, c1, t1);
    SortKeyLayout(topic, c2, t2);
  }

  // ---------------------------------------------------------------------------
  // The storage

  datatype Key = Key(pk: string, sk: string)

  function KeyOf(r: Record): Key
  {
    Key(r.pk, r.sk)
  }

  type Table = map<Key, Record>

  /** Every stored record sits under its own key. */
  ghost predicate WellKeyed(t: Table)
  {
    forall key :: key in t ==> KeyOf(t[key]) == key
  }

  /** A blind write: the record replaces whatever was stored under its key. */
  function Upsert(t: Table, r: Record): Table
  {
    t[KeyOf(r) := r]
  }

  /** Blind writes of rs, in order. */
  function UpsertAll(t: Table, rs: seq<Record>): Table
    decreases |rs|
  {
    if rs == [] then t else UpsertAll(Upsert(t, rs[0]), rs[1..])
  }

  /**
   * Blind writes keep every key, store each written record's key, and leave
   * under every key either what was there or one of the written records.
   */
  lemma UpsertAllFacts(t: Table, rs: seq<Record>)
    ensures var u := UpsertAll(t, rs);
      && t.Keys <= u.Keys
      && (forall r :: r in rs ==> KeyOf(r) in u && u[KeyOf(r)] in rs)
      && (forall key :: key in u ==> (key in t && u[key] == t[key]) || u[key] in rs)
      && (WellKeyed(t) ==> WellKeyed(u))
  {
    UpsertAllKeeps(t, rs);
    UpsertAllStores(t, rs);
  }

  /** Blind writes keep every key, and what they leave under a key is the old record or a written one. */
  lemma {:induction false} UpsertAllKeeps(t: Table, rs: seq<Record>)
    ensures var u := UpsertAll(t, rs);
      && t.Keys <= u.Keys
      && (forall key :: key in u ==> (key in t && u[key] == t[key]) || u[key] in rs)
      && (WellKeyed(t) ==> WellKeyed(u))
    decreases |rs|
  {
    if rs != [] {
      var t1 := Upsert(t, rs[0]);
      UpsertAllKeeps(t1, rs[1..]);
      var u := UpsertAll(t, rs);
      assert u == UpsertAll(t1, rs[1..]);
      forall key | key in u ensures (key in t && u[key] == t[key]) || u[key] in rs {
        if u[key] !in rs[1..] {
          assert key in t1 && u[key] == t1[key];
        }
      }
    }
  }

  /** After blind writes, each written record's key holds one of the written records. */
  lemma {:induction false} UpsertAllStores(t: Table, rs: seq<Record>)
    ensures var u := UpsertAll(t, rs);
      forall r :: r in rs ==> KeyOf(r) in u && u[KeyOf(r)] in rs
    decreases |rs|
  {
    if rs != [] {
      var t1 := Upsert(t, rs[0]);
      UpsertAllStores(t1, rs[1..]);
      UpsertAllKeeps(t1, rs[1..]);
      var u := UpsertAll(t, rs);
      assert u == UpsertAll(t1, rs[1..]);
      forall r | r in rs ensures KeyOf(r) in u && u[KeyOf(r)] in rs {
        if r != rs[0] {
          assert r in rs[1..];
        } else if u[KeyOf(r)] !in rs[1..] {
          assert u[KeyOf(r)] == t1[KeyOf(r)];
        }
      }
    }
  }

  // ---------------------------------------------------------------------------
  // Put

  datatype PutResult = PutResult(err: Option<DbError>, table: Table, issued: seq<Record>)

  /**
   * Store.Put: one record from the single clock reading `now`; `encodes` is the
   * encoder's verdict on it and `stored` whether PutItem succeeds.
   */
  function Put(table: Table, connectionId: string, topic: string, now: Time,
               encodes: Record -> bool, stored: bool): (r: PutResult)
    ensures |r.issued| <= 1
    ensures r.issued == [] <==> r.err == Some(EncodingError)
    ensures r.err == Some(EncodingError) <==> !encodes(NewRecord(topic, connectionId, now))
    ensures r.issued != [] ==> r.issued[0] == NewRecord(topic, connectionId, now)
    ensures r.err == None <==> encodes(NewRecord(topic, connectionId, now)) && stored
    ensures r.err == None ==> r.table == Upsert(table, NewRecord(topic, connectionId, now))
    ensures r.err != None ==> r.table == table
  {
    var item := NewRecord(topic, connectionId, now);
    if !encodes(item) then PutResult(Some(EncodingError), table, [])
    else if !stored then PutResult(Some(StoreUnavailable), table, [item])
    else PutResult(None, Upsert(table, item), [item])
  }

  // ---------------------------------------------------------------------------
  // BatchPut

  /** What one BatchWriteItem call reports: an error, or the items it left unprocessed. */
  datatype WriteAck = WriteFailed | Unprocessed(items: seq<Record>)

  /** How a BatchPut run ends: it returns (nil or an error), or it is still writing when the fuel runs out. */
  datatype Run = Returned(err: Option<DbError>) | FuelSpent

  /** A run's end, the table afterwards, and the request sent by each BatchWriteItem call, in order. */
  datatype Trace = Trace(run: Run, table: Table, sent: seq<seq<Record>>)

  /** The same without the table: how a run ends and the request of each BatchWriteItem call. */
  datatype Rounds = Rounds(run: Run, sent: seq<seq<Record>>)

  /** The storage's side of the bulk-write contract: it reports as unprocessed only items it was sent. */
  ghost predicate ReturnsSubsets(write: (nat, seq<Record>) -> WriteAck)
  {
    forall j: nat, req: seq<Record>, x: Record :: write(j, req).Unprocessed? && x in write(j, req).items ==> x in req
  }

  /** The items of a bulk write that the storage applied. */
  function Accepted(submitted: seq<Record>, unprocessed: seq<Record>): seq<Record>
    decreases |submitted|
  {
    if submitted == [] then []
    else (if submitted[0] in unprocessed then [] else [submitted[0]]) + Accepted(submitted[1..], unprocessed)
  }

  /** The applied items are the submitted items that were not reported unprocessed. */
  lemma {:induction false} AcceptedMembers(submitted: seq<Record>, unprocessed: seq<Record>)
    ensures forall x :: x in Accepted(submitted, unprocessed) <==> x in submitted && x !in unprocessed
    decreases |submitted|
  {
    if submitted != [] {
      AcceptedMembers(submitted[1..], unprocessed);
    }
  }

  function ApplyWrite(t: Table, submitted: seq<Record>, unprocessed: seq<Record>): Table
  {
    UpsertAll(t, Accepted(submitted, unprocessed))
  }

  /** A bulk write stores every item it did not report unprocessed, and nothing that was not submitted. */
  lemma ApplyWriteFacts(t: Table, submitted: seq<Record>, unprocessed: seq<Record>)
    ensures var u := ApplyWrite(t, submitted, unprocessed);
      && t.Keys <= u.Keys
      && (forall r :: r in submitted && r !in unprocessed ==> KeyOf(r) in u && u[KeyOf(r)] in submitted)
      && (forall key :: key in u ==> (key in t && u[key] == t[key]) || u[key] in submitted)
      && (WellKeyed(t) ==> WellKeyed(u))
  {
    AcceptedMembers(submitted, unprocessed);
    UpsertAllFacts(t, Accepted(submitted, unprocessed));
  }

  /** The request items, one per topic, each built from its own clock reading. */
  function Requests(topics: seq<string>, connectionId: string, clock: nat -> Time): seq<Record>
  {
    seq(|topics|, i requires 0 <= i < |topics| => NewRecord(topics[i], connectionId, clock(i)))
  }

  /** Request j is the record for topic j, for the given connection. */
  lemma RequestAt(topics: seq<string>, connectionId: string, clock: nat -> Time, j: nat)
    requires j < |topics|
    ensures var r := Requests(topics, connectionId, clock);
      && |r| == |topics|
      && r[j] == NewRecord(topics[j], connectionId, clock(j))
      && r[j].connectionId == connectionId
      && r[j].pk == TopicPrefix + topics[j]
  {
  }

  /**
   * How the retry loop of BatchPut (db/db.go:138-151) goes, leaving the table
   * aside: from write number k on, with `work` the request items and `retry`
   * the backoff counter, how the run ends and the request of each
   * BatchWriteItem call. At most `fuel` more writes are made.
   */
  function RetryRounds(write: (nat, seq<Record>) -> WriteAck, schedule: Backoff.Schedule,
                       work: seq<Record>, retry: nat, k: nat, fuel: nat): (c: Rounds)
    ensures |c.sent| <= fuel
    ensures c.run == FuelSpent ==> |c.sent| == fuel
    ensures fuel > 0 ==> c.sent != [] && c.sent[0] == work
    decreases fuel
  {
    if fuel == 0 then Rounds(FuelSpent, [])
    else
      match write(k, work)
      case WriteFailed => Rounds(Returned(Some(StoreUnavailable)), [work])
      case Unprocessed(rest) =>
        if rest == [] then Rounds(Returned(None), [work])
        else
          var step := Backoff.Next(schedule, retry, MaxBatchRetries);
          if step.outcome == Backoff.ErrMaxBackoffReached then Rounds(Returned(Some(BackoffExhausted)), [work])
          else
            var tail := RetryRounds(write, schedule, rest, step.retry, k + 1, fuel - 1);
            Rounds(tail.run, [work] + tail.sent)
  }

  /** The table after one BatchWriteItem call: a failed call stores nothing. */
  function AfterWrite(t: Table, ack: WriteAck, submitted: seq<Record>): Table
  {
    match ack
    case WriteFailed => t
    case Unprocessed(rest) => ApplyWrite(t, submitted, rest)
  }

  /** The table after the writes `sent`, numbered from k, have been made in order. */
  function Replay(t: Table, write: (nat, seq<Record>) -> WriteAck, k: nat, sent: seq<seq<Record>>): Table
    decreases |sent|
  {
    if sent == [] then t else Replay(AfterWrite(t, write(k, sent[0]), sent[0]), write, k + 1, sent[1..])
  }

  /** The retry loop: its rounds, and the table they leave behind. */
  function WriteLoop(write: (nat, seq<Record>) -> WriteAck, schedule: Backoff.Schedule,
                     table: Table, work: seq<Record>, retry: nat, k: nat, fuel: nat): Trace
  {
    var c := RetryRounds(write, schedule, work, retry, k, fuel);
    Trace(c.run, Replay(table, write, k, c.sent), c.sent)
  }

  /** The whole of BatchPut: build every item first, then run the retry loop on a fresh generator. */
  function BatchPutSpec(table: Table, connectionId: string, topics: seq<string>, clock: nat -> Time,
                        encodes: Record -> bool, write: (nat, seq<Record>) -> WriteAck,
                        schedule: Backoff.Schedule, fuel: nat): Trace
  {
    var requests := Requests(topics, connectionId, clock);
    if !EncodesAll(requests, encodes) then Trace(Returned(Some(EncodingError)), table, [])
    else WriteLoop(write, schedule, table, requests, 0, 0, fuel)
  }

  predicate EncodesAll(requests: seq<Record>, encodes: Record -> bool)
  {
    forall i :: 0 <= i < |requests| ==> encodes(requests[i])
  }

  /**
   * Store.BatchPut. `clock(i)` is the i-th reading of Now(), `encodes` the
   * encoder, `write(k, req)` the answer of the k-th BatchWriteItem call to
   * request `req`, and `schedule` the body of the backoff generator; the model
   * stops after `fuel` writes.
   */
  method BatchPut(table: Table, connectionId: string, topics: seq<string>, clock: nat -> Time,
                  encodes: Record -> bool, write: (nat, seq<Record>) -> WriteAck,
                  schedule: Backoff.Schedule, fuel: nat)
    returns (run: Run, table': Table, sent: seq<seq<Record>>)
    ensures Trace(run, table', sent) == BatchPutSpec(table, connectionId, topics, clock, encodes, write, schedule, fuel)
  {
    var encoded, requests := BuildRequests(connectionId, topics, clock, encodes);
    if !encoded {
      return Returned(Some(EncodingError)), table, [];
    }
    run, table', sent := WriteUntilProcessed(write, schedule, table, requests, fuel);
  }

  /** The first half of BatchPut: fill one put request per topic, stopping at an item the encoder rejects. */
  method BuildRequests(connectionId: string, topics: seq<string>, clock: nat -> Time, encodes: Record -> bool)
    returns (encoded: bool, requests: seq<Record>)
    ensures encoded == EncodesAll(Requests(topics, connectionId, clock), encodes)
    ensures encoded ==> requests == Requests(topics, connectionId, clock)
  {
    ghost var spec := Requests(topics, connectionId, clock);
    var writeRequests := new Record[|topics|];
    for i := 0 to |topics|
      invariant forall j :: 0 <= j < i ==> writeRequests[j] == spec[j] && encodes(spec[j])
    {
      var m := NewRecord(topics[i], connectionId, clock(i));
      if !encodes(m) {
        assert spec[i] == m;
        return false, [];
      }
      writeRequests[i] := m;
    }
    requests := writeRequests[..];
    assert requests == spec;
    encoded := true;
  }

  /** The second half of BatchPut: write, and while items come back unprocessed, back off and resubmit exactly those. */
  method WriteUntilProcessed(write: (nat, seq<Record>) -> WriteAck, schedule: Backoff.Schedule,
                             table: Table, requests: seq<Record>, fuel: nat)
    returns (run: Run, table': Table, sent: seq<seq<Record>>)
    ensures Trace(run, table', sent) == WriteLoop(write, schedule, table, requests, 0, 0, fuel)
  {
    ghost var full := RetryRounds(write, schedule, requests, 0, 0, fuel);
    var bo := new Backoff.Generator(MaxBatchRetries, schedule);
    var work, t := requests, table;
    var k, left := 0, fuel;
    sent := [];
    while true
      invariant bo.maxRetries == MaxBatchRetries && bo.schedule == schedule
      invariant Remaining(write, schedule, table, full, t, work, bo.retry, k, left, sent)
      decreases left
    {
      ghost var rest := RetryRounds(write, schedule, work, bo.retry, k, left);
      if left == 0 {
        assert sent + rest.sent == sent;
        return FuelSpent, t, sent;
      }
      var ack := write(k, work);
      ghost var sent0, t0 := sent, t;
      sent := sent + [work];
      ReplayCons(t0, write, k, work, []);
      if ack.WriteFailed? {
        assert rest.run == Returned(Some(StoreUnavailable)) && rest.sent == [work] + [];
        return Returned(Some(StoreUnavailable)), t, sent;
      }
      ghost var retry := bo.retry;
      t := ApplyWrite(t, work, ack.items);
      if ack.items == [] {
        assert rest.run == Returned(None) && rest.sent == [work] + [];
        return Returned(None), t, sent;
      }
      var outcome;
      ghost var delayMs;
      outcome, delayMs := bo.Advance();
      if outcome == Backoff.ErrMaxBackoffReached {
        assert rest.run == Returned(Some(BackoffExhausted)) && rest.sent == [work] + [];
        return Returned(Some(BackoffExhausted)), t, sent;
      }
      var k', left' := k + 1, left - 1;
      RemainingAfterResubmit(write, schedule, table, full, t0, t, work, ack.items, retry, bo.retry, k, k', left, left', sent0, sent);
      work, k, left := ack.items, k', left';
    }
  }

  /**
   * The loop invariant of WriteUntilProcessed: `full` is the whole run, `sent`
   * the requests made so far, and what is left of the run is the loop from the
   * current state on, replayed onto the current table `t`.
   */
  ghost predicate Remaining(write: (nat, seq<Record>) -> WriteAck, schedule: Backoff.Schedule, table: Table, full: Rounds,
                            t: Table, work: seq<Record>, retry: nat, k: nat, left: nat, sent: seq<seq<Record>>)
  {
    && full.run == RetryRounds(write, schedule, work, retry, k, left).run
    && full.sent == sent + RetryRounds(write, schedule, work, retry, k, left).sent
    && Replay(table, write, 0, full.sent) == Replay(t, write, k, RetryRounds(write, schedule, work, retry, k, left).sent)
  }

  /** A resubmission keeps the loop invariant. */
  lemma RemainingAfterResubmit(write: (nat, seq<Record>) -> WriteAck, schedule: Backoff.Schedule, table: Table,
                               full: Rounds, t: Table, t': Table, work: seq<Record>, rest: seq<Record>,
                               retry: nat, retry': nat, k: nat, k': nat, left: nat, left': nat,
                               sent: seq<seq<Record>>, sent': seq<seq<Record>>)
    requires Remaining(write, schedule, table, full, t, work, retry, k, left, sent)
    requires left > 0 && write(k, work) == Unprocessed(rest) && rest != []
    requires Backoff.Next(schedule, retry, MaxBatchRetries).outcome == Backoff.Ok
    requires Backoff.Next(schedule, retry, MaxBatchRetries).retry == retry'
    requires t' == ApplyWrite(t, work, rest) && sent' == sent + [work] && k' == k + 1 && left' == left - 1
    ensures Remaining(write, schedule, table, full, t', rest, retry', k', left', sent')
  {
    RoundsUnfold(write, schedule, work, rest, retry, k, left, sent);
    ReplayCons(t, write, k, work, RetryRounds(write, schedule, rest, retry', k + 1, left - 1).sent);
  }

  /**
   * One more round of the loop: a write that leaves items unprocessed, then a
   * successful backoff call; `before` are the requests sent up to this round.
   */
  lemma RoundsUnfold(write: (nat, seq<Record>) -> WriteAck, schedule: Backoff.Schedule,
                     work: seq<Record>, rest: seq<Record>, retry: nat, k: nat, fuel: nat,
                     before: seq<seq<Record>>)
    requires fuel > 0 && write(k, work) == Unprocessed(rest) && rest != []
    requires Backoff.Next(schedule, retry, MaxBatchRetries).outcome == Backoff.Ok
    ensures var c := RetryRounds(write, schedule, work, retry, k, fuel);
      var tail := RetryRounds(write, schedule, rest, Backoff.Next(schedule, retry, MaxBatchRetries).retry, k + 1, fuel - 1);
      && c.run == tail.run
      && c.sent == [work] + tail.sent
      && before + c.sent == (before + [work]) + tail.sent
  {
  }

  /** Replaying a first write and then the others is replaying them all. */
  lemma ReplayCons(t: Table, write: (nat, seq<Record>) -> WriteAck, k: nat, w: seq<Record>, others: seq<seq<Record>>)
    ensures Replay(t, write, k, [w] + others) == Replay(AfterWrite(t, write(k, w), w), write, k + 1, others)
  {
    assert ([w] + others)[1..] == others;
  }

  /** Each request after the first is exactly the non-empty remainder the write before it left unprocessed. */
  ghost predicate Resubmits(write: (nat, seq<Record>) -> WriteAck, k: nat, sent: seq<seq<Record>>)
  {
    forall i :: 0 < i < |sent| ==> write(k + i - 1, sent[i - 1]) == Unprocessed(sent[i]) && sent[i] != []
  }

  /** The first request is the batch itself and every later one is the previous write's unprocessed remainder. */
  lemma {:induction false} WriteLoopResubmits(write: (nat, seq<Record>) -> WriteAck, schedule: Backoff.Schedule,
                                              work: seq<Record>, retry: nat, k: nat, fuel: nat)
    ensures Resubmits(write, k, RetryRounds(write, schedule, work, retry, k, fuel).sent)
    decreases fuel
  {
    if fuel > 0 && write(k, work).Unprocessed? && write(k, work).items != [] {
      var rest := write(k, work).items;
      var step := Backoff.Next(schedule, retry, MaxBatchRetries);
      if step.outcome == Backoff.Ok {
        var tail := RetryRounds(write, schedule, rest, step.retry, k + 1, fuel - 1);
        WriteLoopResubmits(write, schedule, rest, step.retry, k + 1, fuel - 1);
        var sent := RetryRounds(write, schedule, work, retry, k, fuel).sent;
        assert sent == [work] + tail.sent;
        forall i | 0 < i < |sent|
          ensures write(k + i - 1, sent[i - 1]) == Unprocessed(sent[i]) && sent[i] != []
        {
          if i > 1 {
            assert sent[i - 1] == tail.sent[i - 2] && sent[i] == tail.sent[i - 1];
          }
        }
      }
    }
  }

  /**
   * What a returned run reports, given the answer of its last write: nil after
   * a write that left nothing unprocessed, the store error after a failed
   * write, and BackoffExhausted after a write that left items unprocessed. No
   * other error comes out of the loop.
   */
  function Verdict(last: WriteAck): Option<DbError>
  {
    match last
    case WriteFailed => Some(StoreUnavailable)
    case Unprocessed(rest) => if rest == [] then None else Some(BackoffExhausted)
  }

  /** The last write decides how a run ends. */
  lemma {:induction false} WriteLoopLastWrite(write: (nat, seq<Record>) -> WriteAck, schedule: Backoff.Schedule,
                                              work: seq<Record>, retry: nat, k: nat, fuel: nat)
    ensures var c := RetryRounds(write, schedule, work, retry, k, fuel);
      c.run.Returned? ==>
        && c.sent != []
        && c.run.err == Verdict(write(k + |c.sent| - 1, c.sent[|c.sent| - 1]))
    decreases fuel, 1
  {
    var ack := write(k, work);
    if fuel > 0 && ack.Unprocessed? && ack.items != []
       && Backoff.Next(schedule, retry, MaxBatchRetries).outcome == Backoff.Ok {
      LastWriteOfResubmission(write, schedule, work, retry, k, fuel);
    } else if fuel > 0 {
      var c := RetryRounds(write, schedule, work, retry, k, fuel);
      assert c.sent == [work];
      assert k + |c.sent| - 1 == k;
    }
  }

  /** The inductive step: after a resubmission the last write is that of the rest of the run. */
  lemma {:induction false} LastWriteOfResubmission(write: (nat, seq<Record>) -> WriteAck, schedule: Backoff.Schedule,
                                                   work: seq<Record>, retry: nat, k: nat, fuel: nat)
    requires fuel > 0 && write(k, work).Unprocessed? && write(k, work).items != []
    requires Backoff.Next(schedule, retry, MaxBatchRetries).outcome == Backoff.Ok
    ensures var c := RetryRounds(write, schedule, work, retry, k, fuel);
      c.run.Returned? ==>
        && c.sent != []
        && c.run.err == Verdict(write(k + |c.sent| - 1, c.sent[|c.sent| - 1]))
    decreases fuel, 0
  {
    var rest := write(k, work).items;
    var step := Backoff.Next(schedule, retry, MaxBatchRetries);
    RoundsUnfold(write, schedule, work, rest, retry, k, fuel, []);
    var c := RetryRounds(write, schedule, work, retry, k, fuel);
    var tail := RetryRounds(write, schedule, rest, step.retry, k + 1, fuel - 1);
    WriteLoopLastWrite(write, schedule, rest, step.retry, k + 1, fuel - 1);
    LastOfResubmission(write, k, work, c.run, tail.run, c.sent, tail.sent);
  }

  /** Putting one request in front of a run leaves its last write, and so its verdict, unchanged. */
  lemma LastOfResubmission(write: (nat, seq<Record>) -> WriteAck, k: nat, work: seq<Record>,
                           run: Run, tailRun: Run, sent: seq<seq<Record>>, tailSent: seq<seq<Record>>)
    requires run == tailRun && sent == [work] + tailSent
    requires tailRun.Returned? ==>
      tailSent != [] && tailRun.err == Verdict(write((k + 1) + |tailSent| - 1, tailSent[|tailSent| - 1]))
    ensures run.Returned? ==> sent != [] && run.err == Verdict(write(k + |sent| - 1, sent[|sent| - 1]))
  {
    if tailRun.Returned? {
      assert sent[|sent| - 1] == tailSent[|tailSent| - 1];
      assert k + |sent| - 1 == (k + 1) + |tailSent| - 1;
    }
  }

  /** Every item of every request is an item of the batch. */
  ghost predicate DrawnFrom(sent: seq<seq<Record>>, batch: seq<Record>)
  {
    forall i, x :: 0 <= i < |sent| && x in sent[i] ==> x in batch
  }

  /** Every request the loop sends is drawn from its batch, when the storage only reports items it was sent. */
  lemma {:induction false} RoundsWithinBatch(write: (nat, seq<Record>) -> WriteAck, schedule: Backoff.Schedule,
                                             work: seq<Record>, retry: nat, k: nat, fuel: nat)
    requires ReturnsSubsets(write)
    ensures DrawnFrom(RetryRounds(write, schedule, work, retry, k, fuel).sent, work)
    decreases fuel
  {
    if fuel > 0 && write(k, work).Unprocessed? && write(k, work).items != [] {
      var rest := write(k, work).items;
      var step := Backoff.Next(schedule, retry, MaxBatchRetries);
      if step.outcome == Backoff.Ok {
        RoundsUnfold(write, schedule, work, rest, retry, k, fuel, []);
        RoundsWithinBatch(write, schedule, rest, step.retry, k + 1, fuel - 1);
        var c := RetryRounds(write, schedule, work, retry, k, fuel);
        var tail := RetryRounds(write, schedule, rest, step.retry, k + 1, fuel - 1);
        forall i, x | 0 <= i < |c.sent| && x in c.sent[i] ensures x in work {
          if i > 0 {
            assert c.sent[i] == tail.sent[i - 1];
            assert x in rest;
          }
        }
      }
    }
  }

  /**
   * Replaying writes whose items all come from `batch` keeps every key, and
   * leaves under each key its old record or an item of the batch.
   */
  lemma {:induction false} ReplayFrame(t: Table, write: (nat, seq<Record>) -> WriteAck, k: nat,
                                       sent: seq<seq<Record>>, batch: seq<Record>)
    requires DrawnFrom(sent, batch)
    ensures var u := Replay(t, write, k, sent);
      && t.Keys <= u.Keys
      && (forall key :: key in u ==> (key in t && u[key] == t[key]) || u[key] in batch)
      && (WellKeyed(t) ==> WellKeyed(u))
    decreases |sent|
  {
    if sent != [] {
      var t1 := AfterWrite(t, write(k, sent[0]), sent[0]);
      if write(k, sent[0]).Unprocessed? {
        ApplyWriteFacts(t, sent[0], write(k, sent[0]).items);
      }
      assert forall i, x :: 0 <= i < |sent[1..]| && x in sent[1..][i] ==> x in sent[i + 1];
      ReplayFrame(t1, write, k + 1, sent[1..], batch);
    }
  }

  /**
   * The writes of a run that returned nil: each one but the last left exactly
   * the next request unprocessed, and the last left nothing.
   */
  ghost predicate Drains(write: (nat, seq<Record>) -> WriteAck, k: nat, sent: seq<seq<Record>>)
    decreases |sent|
  {
    && sent != []
    && write(k, sent[0]).Unprocessed?
    && if |sent| == 1 then write(k, sent[0]).items == []
       else write(k, sent[0]).items == sent[1] && Drains(write, k + 1, sent[1..])
  }

  /** A run that returns nil is a draining chain of writes. */
  lemma {:induction false} DrainedRunDrains(write: (nat, seq<Record>) -> WriteAck, schedule: Backoff.Schedule,
                                            work: seq<Record>, retry: nat, k: nat, fuel: nat)
    requires RetryRounds(write, schedule, work, retry, k, fuel).run == Returned(None)
    ensures Drains(write, k, RetryRounds(write, schedule, work, retry, k, fuel).sent)
    decreases fuel
  {
    var rest := write(k, work).items;
    if rest != [] {
      var step := Backoff.Next(schedule, retry, MaxBatchRetries);
      RoundsUnfold(write, schedule, work, rest, retry, k, fuel, []);
      DrainedRunDrains(write, schedule, rest, step.retry, k + 1, fuel - 1);
      var c := RetryRounds(write, schedule, work, retry, k, fuel);
      assert c.sent[1..] == RetryRounds(write, schedule, rest, step.retry, k + 1, fuel - 1).sent;
    }
  }

  /** Along a draining chain every later request is drawn from the first. */
  lemma {:induction false} DrainsWithinFirst(write: (nat, seq<Record>) -> WriteAck, k: nat, sent: seq<seq<Record>>)
    requires ReturnsSubsets(write) && Drains(write, k, sent)
    ensures DrawnFrom(sent, sent[0])
    decreases |sent|
  {
    if |sent| > 1 {
      DrainsWithinFirst(write, k + 1, sent[1..]);
      forall i, x | 0 <= i < |sent| && x in sent[i] ensures x in sent[0] {
        if i > 0 {
          assert sent[i] == sent[1..][i - 1];
          assert x in write(k, sent[0]).items;
        }
      }
    }
  }

  /** Replaying a draining chain stores every item of its first request, under its key, as an item of that request. */
  lemma {:induction false} ReplayStores(t: Table, write: (nat, seq<Record>) -> WriteAck, k: nat, sent: seq<seq<Record>>)
    requires ReturnsSubsets(write) && Drains(write, k, sent)
    ensures var u := Replay(t, write, k, sent);
      forall r :: r in sent[0] ==> KeyOf(r) in u && u[KeyOf(r)] in sent[0]
    decreases |sent|
  {
    var work := sent[0];
    var rest := write(k, work).items;
    var t1 := ApplyWrite(t, work, rest);
    ApplyWriteFacts(t, work, rest);
    DrainsWithinFirst(write, k, sent);
    assert forall i, x :: 0 <= i < |sent[1..]| && x in sent[1..][i] ==> x in sent[i + 1];
    ReplayFrame(t1, write, k + 1, sent[1..], work);
    if |sent| > 1 {
      ReplayStores(t1, write, k + 1, sent[1..]);
      assert forall x :: x in rest ==> x in work;
    }
  }

  /** The writes leave every key they found in place, and what they store under any key comes from the table or the batch. */
  lemma WriteLoopFrame(write: (nat, seq<Record>) -> WriteAck, schedule: Backoff.Schedule,
                       table: Table, work: seq<Record>, retry: nat, k: nat, fuel: nat)
    requires ReturnsSubsets(write)
    ensures var u := WriteLoop(write, schedule, table, work, retry, k, fuel).table;
      && table.Keys <= u.Keys
      && (forall key :: key in u ==> (key in table && u[key] == table[key]) || u[key] in work)
      && (WellKeyed(table) ==> WellKeyed(u))
  {
    RoundsWithinBatch(write, schedule, work, retry, k, fuel);
    ReplayFrame(table, write, k, RetryRounds(write, schedule, work, retry, k, fuel).sent, work);
  }

  /**
   * A run that returns nil has stored every item of its batch: under each
   * item's key there is afterwards an item of the batch.
   */
  lemma DrainedLoopStoresAll(write: (nat, seq<Record>) -> WriteAck, schedule: Backoff.Schedule,
                             table: Table, work: seq<Record>, retry: nat, k: nat, fuel: nat)
    requires ReturnsSubsets(write)
    requires RetryRounds(write, schedule, work, retry, k, fuel).run == Returned(None)
    ensures var u := WriteLoop(write, schedule, table, work, retry, k, fuel).table;
      forall r :: r in work ==> KeyOf(r) in u && u[KeyOf(r)] in work
  {
    DrainedRunDrains(write, schedule, work, retry, k, fuel);
    ReplayStores(table, write, k, RetryRounds(write, schedule, work, retry, k, fuel).sent);
  }

  /**
   * With the documented backoff schedule the loop makes at most
   * MaxBatchRetries + 2 writes (the first try and one after each of the
   * MaxBatchRetries + 1 successful backoff calls) and so always returns.
   */
  lemma {:induction false} DocumentedWriteLoopBounded(write: (nat, seq<Record>) -> WriteAck,
                                                      work: seq<Record>, retry: nat, k: nat, fuel: nat)
    requires retry <= MaxBatchRetries + 1
    ensures var c := RetryRounds(write, Backoff.Documented, work, retry, k, fuel);
      && |c.sent| <= MaxBatchRetries + 2 - retry
      && (fuel >= MaxBatchRetries + 2 - retry ==> c.run.Returned?)
    decreases fuel
  {
    if fuel > 0 && write(k, work).Unprocessed? && write(k, work).items != [] {
      var rest := write(k, work).items;
      var step := Backoff.Next(Backoff.Documented, retry, MaxBatchRetries);
      if step.outcome == Backoff.Ok {
        DocumentedWriteLoopBounded(write, rest, step.retry, k + 1, fuel - 1);
      }
    }
  }

  /**
   * With the backoff as written, a storage that keeps leaving the batch
   * unprocessed keeps the loop resubmitting it for as long as it is let run:
   * BatchPut never returns.
   */
  lemma {:induction false} AsWrittenWriteLoopNeverReturns(write: (nat, seq<Record>) -> WriteAck,
                                                          work: seq<Record>, k: nat, fuel: nat)
    requires work != []
    requires forall j: nat, req: seq<Record> :: req != [] ==> write(j, req) == Unprocessed(req)
    ensures var c := RetryRounds(write, Backoff.AsWritten, work, 0, k, fuel);
      && c.run == FuelSpent
      && |c.sent| == fuel
      && forall i :: 0 <= i < fuel ==> c.sent[i] == work
    decreases fuel
  {
    if fuel > 0 {
      var tail := RetryRounds(write, Backoff.AsWritten, work, 0, k + 1, fuel - 1);
      AsWrittenWriteLoopNeverReturns(write, work, k + 1, fuel - 1);
      var c := RetryRounds(write, Backoff.AsWritten, work, 0, k, fuel);
      assert c.sent == [work] + tail.sent;
      forall i | 0 <= i < fuel ensures c.sent[i] == work {
        if i > 0 { assert c.sent[i] == tail.sent[i - 1]; }
      }
    }
  }

  /**
   * One put request per topic, in topic order, all for the same connection; an
   * item the encoder rejects ends the call before any write.
   */
  lemma BatchPutRequests(table: Table, connectionId: string, topics: seq<string>, clock: nat -> Time,
                         encodes: Record -> bool, write: (nat, seq<Record>) -> WriteAck,
                         schedule: Backoff.Schedule, fuel: nat)
    ensures var tr := BatchPutSpec(table, connectionId, topics, clock, encodes, write, schedule, fuel);
      && ((exists i :: 0 <= i < |topics| && !encodes(NewRecord(topics[i], connectionId, clock(i))))
           ==> tr == Trace(Returned(Some(EncodingError)), table, []))
      && ((forall i :: 0 <= i < |topics| ==> encodes(NewRecord(topics[i], connectionId, clock(i)))) && fuel > 0 ==>
             && |tr.sent[0]| == |topics|
               && (forall i :: 0 <= i < |topics| ==> tr.sent[0][i] == NewRecord(topics[i], connectionId, clock(i)))
               && (forall i :: 0 <= i < |topics| ==> tr.sent[0][i].connectionId == connectionId))
  {
    var requests := Requests(topics, connectionId, clock);
    if exists i :: 0 <= i < |topics| && !encodes(NewRecord(topics[i], connectionId, clock(i))) {
      var i :| 0 <= i < |topics| && !encodes(NewRecord(topics[i], connectionId, clock(i)));
      assert !encodes(requests[i]);
    }
  }

  /** BatchPut on the documented backoff makes at most seven writes and, given fuel for them, always returns. */
  lemma DocumentedBatchPutBounded(table: Table, connectionId: string, topics: seq<string>, clock: nat -> Time,
                                  encodes: Record -> bool, write: (nat, seq<Record>) -> WriteAck, fuel: nat)
    ensures var tr := BatchPutSpec(table, connectionId, topics, clock, encodes, write, Backoff.Documented, fuel);
      && |tr.sent| <= 7
      && (fuel >= 7 ==> tr.run.Returned?)
  {
    DocumentedWriteLoopBounded(write, Requests(topics, connectionId, clock), 0, 0, fuel);
  }

  /** BatchPut as written, against a storage that processes nothing, is still writing however long it runs. */
  lemma AsWrittenBatchPutNeverReturns(table: Table, connectionId: string, topics: seq<string>, clock: nat -> Time,
                                      encodes: Record -> bool, write: (nat, seq<Record>) -> WriteAck, fuel: nat)
    requires topics != []
    requires forall r: Record :: encodes(r)
    requires forall j: nat, req: seq<Record> :: req != [] ==> write(j, req) == Unprocessed(req)
    ensures var tr := BatchPutSpec(table, connectionId, topics, clock, encodes, write, Backoff.AsWritten, fuel);
      tr.run == FuelSpent && |tr.sent| == fuel
  {
    var requests := Requests(topics, connectionId, clock);
    assert requests[0] in requests;
    AsWrittenWriteLoopNeverReturns(write, requests, 0, fuel);
  }

  // ---------------------------------------------------------------------------
  // Query

  /** One page of the paginator: a transport error, a page that does not decode, or its records. */
  datatype Page = FetchFailed | Undecodable | Fetched(records: seq<Record>)

  datatype QueryResult = QueryResult(connectionIds: seq<string>, err: Option<DbError>)

  function ConnectionIds(rs: seq<Record>): (ids: seq<string>)
  {
    seq(|rs|, i requires 0 <= i < |rs| => rs[i].connectionId)
  }

  /** The records of the pages, in page order. */
  function Flatten(pages: seq<Page>): seq<Record>
  {
    if pages == [] then [] else (if pages[0].Fetched? then pages[0].records else []) + Flatten(pages[1..])
  }

  /** What the paging loop of Query gathers from `pages`. */
  function Collect(pages: seq<Page>): QueryResult
  {
    if pages == [] then QueryResult([], None)
    else
      match pages[0]
      case FetchFailed => QueryResult([], Some(StoreUnavailable))
      case Undecodable => QueryResult([], Some(DecodingError))
      case Fetched(rs) =>
        var tail := Collect(pages[1..]);
        QueryResult(ConnectionIds(rs) + tail.connectionIds, tail.err)
  }

  /**
   * Store.Query. `pages` are the paginator's answers to the key condition
   * `pk = topicID`, which takes the argument verbatim.
   */
  method Query(topicId: string, pages: seq<Page>) returns (connectionIds: seq<string>, err: Option<DbError>)
    ensures QueryResult(connectionIds, err) == Collect(pages)
  {
    connectionIds, err := [], None;
    var p := 0;
    while p < |pages|
      invariant p <= |pages|
      invariant Collect(pages) == QueryResult(connectionIds + Collect(pages[p..]).connectionIds, Collect(pages[p..]).err)
    {
      assert pages[p..][1..] == pages[p + 1..];
      match pages[p]
      case FetchFailed =>
        err := Some(StoreUnavailable);
        return;
      case Undecodable =>
        err := Some(DecodingError);
        return;
      case Fetched(page) =>
        connectionIds := AppendConnectionIds(connectionIds, page);
      p := p + 1;
    }
  }

  /** The inner loop of Query: append the connection ID of each record of one page. */
  method AppendConnectionIds(ids: seq<string>, page: seq<Record>) returns (ids': seq<string>)
    ensures ids' == ids + ConnectionIds(page)
  {
    ids' := ids;
    for j := 0 to |page|
      invariant ids' == ids + ConnectionIds(page[..j])
    {
      assert ConnectionIds(page[..j + 1]) == ConnectionIds(page[..j]) + [page[j].connectionId];
      ids' := ids' + [page[j].connectionId];
    }
    assert page[..|page|] == page;
  }

  /**
   * Query returns the connection ID of every record on every page in page
   * order; at the first page that fails to arrive or to decode it stops and
   * returns what it gathered before it, with the matching error.
   */
  lemma {:induction false} CollectPrefix(pages: seq<Page>, j: nat)
    requires j <= |pages|
    requires forall i :: 0 <= i < j ==> pages[i].Fetched?
    requires j < |pages| ==> !pages[j].Fetched?
    ensures Collect(pages).connectionIds == ConnectionIds(Flatten(pages[..j]))
    ensures Collect(pages).err ==
      (if j == |pages| then None else if pages[j].FetchFailed? then Some(StoreUnavailable) else Some(DecodingError))
  {
    if j == 0 {
      assert pages[..0] == [];
    } else {
      CollectPrefix(pages[1..], j - 1);
      assert pages[1..][..j - 1] == pages[..j][1..];
      ConnectionIdsConcat(pages[0].records, Flatten(pages[1..][..j - 1]));
    }
  }

  lemma ConnectionIdsConcat(a: seq<Record>, b: seq<Record>)
    ensures ConnectionIds(a + b) == ConnectionIds(a) + ConnectionIds(b)
  {
  }

  /** The pages list exactly the records stored under `pk` (in some order), and all of them arrive and decode. */
  ghost predicate Served(table: Table, pk: string, pages: seq<Page>)
  {
    && (forall i :: 0 <= i < |pages| ==> pages[i].Fetched?)
    && (forall r :: r in Flatten(pages) <==> exists key :: key in table && key.pk == pk && table[key] == r)
  }

  /** However the storage splits the records under `pk` into pages, Query returns all of their connection IDs and no other. */
  lemma QueryServed(table: Table, pk: string, pages: seq<Page>)
    requires Served(table, pk, pages)
    ensures Collect(pages).err == None
    ensures forall c :: c in Collect(pages).connectionIds <==>
      exists key :: key in table && key.pk == pk && table[key].connectionId == c
  {
    CollectPrefix(pages, |pages|);
    assert pages[..|pages|] == pages;
    var ids := Collect(pages).connectionIds;
    var rs := Flatten(pages);
    forall c ensures c in ids <==> exists key :: key in table && key.pk == pk && table[key].connectionId == c {
      if c in ids {
        var i :| 0 <= i < |ids| && ids[i] == c;
        assert rs[i] in rs;
      }
      if exists key :: key in table && key.pk == pk && table[key].connectionId == c {
        var key :| key in table && key.pk == pk && table[key].connectionId == c;
        assert table[key] in rs;
        var i :| 0 <= i < |rs| && rs[i] == table[key];
        assert ids[i] == c;
      }
    }
  }

  /** A record written by Put(c, t) is found by Query("topic/" + t). */
  lemma PutThenQuery(table: Table, connectionId: string, topic: string, now: Time,
                     encodes: Record -> bool, pages: seq<Page>)
    requires Put(table, connectionId, topic, now, encodes, true).err == None
    requires Served(Put(table, connectionId, topic, now, encodes, true).table, TopicPrefix + topic, pages)
    ensures connectionId in Collect(pages).connectionIds
  {
    var u := Put(table, connectionId, topic, now, encodes, true).table;
    QueryServed(u, TopicPrefix + topic, pages);
    assert KeyOf(NewRecord(topic, connectionId, now)) in u;
  }

  /** Query takes its argument as the partition key verbatim: Query(t) does not find what Put(c, t) wrote into an empty table. */
  lemma PutIsNotUnderBareTopic(connectionId: string, topic: string, now: Time,
                               encodes: Record -> bool, pages: seq<Page>)
    requires Served(Put(map[], connectionId, topic, now, encodes, true).table, topic, pages)
    ensures forall c :: c !in Collect(pages).connectionIds
  {
    var u := Put(map[], connectionId, topic, now, encodes, true).table;
    QueryServed(u, topic, pages);
    var ids := Collect(pages).connectionIds;
    var rec := NewRecord(topic, connectionId, now);
    assert forall key :: key in u ==> key == KeyOf(rec);
    assert |rec.pk| != |topic|;
  }

  /** After BatchPut(c, topics) returns nil, Query("topic/" + t) finds c for every t in topics. */
  lemma BatchPutThenQuery(table: Table, connectionId: string, topics: seq<string>, clock: nat -> Time,
                          encodes: Record -> bool, write: (nat, seq<Record>) -> WriteAck,
                          schedule: Backoff.Schedule, fuel: nat, i: nat, pages: seq<Page>)
    requires ReturnsSubsets(write)
    requires BatchPutSpec(table, connectionId, topics, clock, encodes, write, schedule, fuel).run == Returned(None)
    requires i < |topics|
    requires Served(BatchPutSpec(table, connectionId, topics, clock, encodes, write, schedule, fuel).table,
                    TopicPrefix + topics[i], pages)
    ensures connectionId in Collect(pages).connectionIds
  {
    var requests := Requests(topics, connectionId, clock);
    assert EncodesAll(requests, encodes);
    var tr := WriteLoop(write, schedule, table, requests, 0, 0, fuel);
    assert BatchPutSpec(table, connectionId, topics, clock, encodes, write, schedule, fuel) == tr;
    var u := tr.table;
    DrainedLoopStoresAll(write, schedule, table, requests, 0, 0, fuel);
    RequestAt(topics, connectionId, clock, i);
    var key := KeyOf(requests[i]);
    assert requests[i] in requests;
    var stored := u[key];
    assert stored in requests;
    var j :| 0 <= j < |requests| && requests[j] == stored;
    RequestAt(topics, connectionId, clock, j);
    QueryServed(u, TopicPrefix + topics[i], pages);
  }
}
