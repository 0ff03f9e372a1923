/**
 * The job registry and the ingestion job. One recurring job per id
 * `tracknum + company`; a firing fetches the carrier's events, stores the ones
 * not seen before and tells every subscriber of the key about them.
 * The carrier's answer is a parameter: `None` is a failed fetch or an
 * unsupported company. Timer firings are explicit calls of `Fire`.
 */
module Scheduler {
  import opened Wrappers
  import opened Seqs
  import opened Database
  import opened Notify

  /** `JOB_INTERVAL`: every job runs every 30 minutes. */
  const JobInterval: nat := 30 * 60

  /** A registered job: the key its callback polls, its interval in seconds,
      and whether its first run is due at once (`next_run_time=now`). */
  datatype Job = Job(tracknum: string, company: string, intervalSeconds: nat, runNow: bool)

  /** The id of a key's job: plain string concatenation. */
  function JobId(tracknum: string, company: string): string
  {
    tracknum + company
  }

  /** Distinct keys can share one job id: ("ab", "c") and ("a", "bc") both give "abc". */
  lemma JobIdCollides()
    ensures exists t1, c1, t2, c2 :: (t1, c1) != (t2, c2) && JobId(t1, c1) == JobId(t2, c2)
  {
    assert ("ab", "c") != ("a", "bc") by {
      assert |"ab"| != |"a"|;
    }
    assert JobId("ab", "c") == JobId("a", "bc");
  }

  // ------------------------------------------------------------------
  // The registry.

  /** `add_tracknum_job` on the registry: a new job when the id is free; an existing job is kept as it is. */
  function EnsureJob(jobs: map<string, Job>, tracknum: string, company: string): map<string, Job>
  {
    var id := JobId(tracknum, company);
    if id in jobs then jobs else jobs[id := Job(tracknum, company, JobInterval, true)]
  }

  /** `add_tracknum_job` for each key in turn. */
  function EnsureJobs(jobs: map<string, Job>, keys: seq<(string, string)>): map<string, Job>
    decreases |keys|
  {
    if keys == [] then jobs
    else EnsureJob(EnsureJobs(jobs, keys[..|keys| - 1]), keys[|keys| - 1].0, keys[|keys| - 1].1)
  }

  /**
   * After adding jobs for `keys` the registry holds exactly the old ids plus
   * the id of every key, old jobs are untouched, and every new job polls one of
   * the keys every 30 minutes, starting at once.
   */
  lemma {:induction false} EnsureJobsSpec(jobs: map<string, Job>, keys: seq<(string, string)>)
    ensures var r := EnsureJobs(jobs, keys);
            && (forall id :: id in r <==> id in jobs || exists k :: 0 <= k < |keys| && JobId(keys[k].0, keys[k].1) == id)
            && (forall id :: id in jobs ==> r[id] == jobs[id])
            && (forall id :: id in r && id !in jobs ==>
                  JobId(r[id].tracknum, r[id].company) == id && r[id].intervalSeconds == JobInterval && r[id].runNow &&
                  exists k :: 0 <= k < |keys| && keys[k] == (r[id].tracknum, r[id].company))
    decreases |keys|
  {
    if keys != [] {
      var keys' := keys[..|keys| - 1];
      EnsureJobsSpec(jobs, keys');
      assert forall k :: 0 <= k < |keys'| ==> keys'[k] == keys[k];
    }
  }

  /**
   * When two keys collide, the key registered second never gets a job of its
   * own: the registry is as the first key left it, and a job created for the
   * first key polls that key. The colliding keys need two carrier codes, and
   * the code ships only "oca".
   */
  lemma CollidingKeyIsNotPolled(jobs: map<string, Job>, t1: string, c1: string, t2: string, c2: string)
    requires JobId(t1, c1) == JobId(t2, c2)
    ensures var r := EnsureJob(jobs, t1, c1);
            && EnsureJob(r, t2, c2) == r
            && (JobId(t1, c1) !in jobs ==> EnsureJob(r, t2, c2)[JobId(t2, c2)] == Job(t1, c1, JobInterval, true))
  {
  }

  // ------------------------------------------------------------------
  // Ingestion.

  function Stamper(tracknum: string, company: string): Row -> InfoRow
  {
    (r: Row) => Stamp(tracknum, company, r)
  }

  /**
   * The loop of `_update_tracking`: each fetched row goes through the
   * insert-if-absent of the store; the rows it reports as new are collected.
   * Result: the history afterwards and `new_info`.
   */
  function Ingest(history: seq<InfoRow>, tracknum: string, company: string, rows: seq<Row>): (seq<InfoRow>, seq<Row>)
    decreases |rows|
  {
    if rows == [] then (history, [])
    else
      var before := Ingest(history, tracknum, company, rows[..|rows| - 1]);
      var row := rows[|rows| - 1];
      var isNew := Stamp(tracknum, company, row) !in before.0;
      (InsertIfAbsent(before.0, Stamp(tracknum, company, row)), if isNew then before.1 + [row] else before.1)
  }

  /** Reference definition of the new events: the fetched rows, in fetched
      order, whose tuple was neither stored beforehand nor fetched earlier. */
  function FreshRows(history: seq<InfoRow>, tracknum: string, company: string, rows: seq<Row>): seq<Row>
    decreases |rows|
  {
    if rows == [] then []
    else
      var row := rows[|rows| - 1];
      var prefix := rows[..|rows| - 1];
      FreshRows(history, tracknum, company, prefix) +
        (if Stamp(tracknum, company, row) !in history && row !in prefix then [row] else [])
  }

  lemma {:induction false} FreshRowsAreFetched(history: seq<InfoRow>, tracknum: string, company: string, rows: seq<Row>)
    ensures forall x :: x in FreshRows(history, tracknum, company, rows) ==>
              x in rows && Stamp(tracknum, company, x) !in history
    decreases |rows|
  {
    if rows != [] {
      var prefix := rows[..|rows| - 1];
      FreshRowsAreFetched(history, tracknum, company, prefix);
      assert forall x :: x in prefix ==> x in rows;
    }
  }

  lemma {:induction false} FreshRowsCover(history: seq<InfoRow>, tracknum: string, company: string, rows: seq<Row>)
    ensures forall x :: x in rows ==>
              Stamp(tracknum, company, x) in history || x in FreshRows(history, tracknum, company, rows)
    decreases |rows|
  {
    if rows != [] {
      var prefix := rows[..|rows| - 1];
      FreshRowsCover(history, tracknum, company, prefix);
      assert rows == prefix + [rows[|rows| - 1]];
    }
  }

  lemma {:induction false} FreshRowsDistinct(history: seq<InfoRow>, tracknum: string, company: string, rows: seq<Row>)
    ensures NoDuplicates(FreshRows(history, tracknum, company, rows))
    decreases |rows|
  {
    if rows != [] {
      var prefix := rows[..|rows| - 1];
      FreshRowsDistinct(history, tracknum, company, prefix);
      FreshRowsAreFetched(history, tracknum, company, prefix);
    }
  }

  /** A row's tuple is in the history extended with the fresh rows of `prefix`
      exactly when it was stored before or fetched in `prefix`. */
  lemma StoredOrFetched(history: seq<InfoRow>, tracknum: string, company: string, prefix: seq<Row>, row: Row)
    ensures var stamps := Map(FreshRows(history, tracknum, company, prefix), Stamper(tracknum, company));
            Stamp(tracknum, company, row) in history + stamps <==> Stamp(tracknum, company, row) in history || row in prefix
  {
    var f := FreshRows(history, tracknum, company, prefix);
    var stamps := Map(f, Stamper(tracknum, company));
    var s := Stamp(tracknum, company, row);
    if s in stamps {
      var k :| 0 <= k < |stamps| && stamps[k] == s;
      assert f[k] == row;
      FreshRowsAreFetched(history, tracknum, company, prefix);
      assert f[k] in f;
    }
    if s !in history && row in prefix {
      FreshRowsCover(history, tracknum, company, prefix);
      var k :| 0 <= k < |f| && f[k] == row;
      assert stamps[k] == s;
    }
  }

  /** The ingestion loop appends exactly the fresh rows, in order, to the
      history and reports exactly them as new. */
  lemma {:induction false} IngestIsFresh(history: seq<InfoRow>, tracknum: string, company: string, rows: seq<Row>)
    ensures Ingest(history, tracknum, company, rows).1 == FreshRows(history, tracknum, company, rows)
    ensures Ingest(history, tracknum, company, rows).0 ==
              history + Map(FreshRows(history, tracknum, company, rows), Stamper(tracknum, company))
    decreases |rows|
  {
    if rows != [] {
      var prefix := rows[..|rows| - 1];
      var row := rows[|rows| - 1];
      IngestIsFresh(history, tracknum, company, prefix);
      var f := FreshRows(history, tracknum, company, prefix);
      var stamps := Map(f, Stamper(tracknum, company));
      StoredOrFetched(history, tracknum, company, prefix, row);
      var s := Stamp(tracknum, company, row);
      if s !in history + stamps {
        assert (f + [row])[..|f|] == f;
        assert Map(f + [row], Stamper(tracknum, company)) == stamps + [s];
      }
    }
  }

  /** A row is reported new exactly when it was fetched and its tuple was not stored before; no row twice. */
  lemma IngestNewRows(history: seq<InfoRow>, tracknum: string, company: string, rows: seq<Row>)
    ensures var newInfo := Ingest(history, tracknum, company, rows).1;
            && (forall x :: x in newInfo <==> x in rows && Stamp(tracknum, company, x) !in history)
            && NoDuplicates(newInfo)
  {
    IngestIsFresh(history, tracknum, company, rows);
    FreshRowsAreFetched(history, tracknum, company, rows);
    FreshRowsCover(history, tracknum, company, rows);
    FreshRowsDistinct(history, tracknum, company, rows);
  }

  /** After ingestion every fetched row is stored, and the old history is a prefix of the new one. */
  lemma IngestStoresAll(history: seq<InfoRow>, tracknum: string, company: string, rows: seq<Row>)
    ensures var h := Ingest(history, tracknum, company, rows).0;
            && history <= h
            && forall x :: x in rows ==> Stamp(tracknum, company, x) in h
  {
    IngestIsFresh(history, tracknum, company, rows);
    FreshRowsCover(history, tracknum, company, rows);
    var f := FreshRows(history, tracknum, company, rows);
    var h := Ingest(history, tracknum, company, rows).0;
    forall x | x in rows ensures Stamp(tracknum, company, x) in h {
      if x in f {
        var k :| 0 <= k < |f| && f[k] == x;
        assert Map(f, Stamper(tracknum, company))[k] == Stamp(tracknum, company, x);
        assert h[|history| + k] == Stamp(tracknum, company, x);
      }
    }
  }

  /** Ingesting rows that are all stored changes nothing and reports nothing. */
  lemma {:induction false} IngestStored(history: seq<InfoRow>, tracknum: string, company: string, rows: seq<Row>)
    requires forall x :: x in rows ==> Stamp(tracknum, company, x) in history
    ensures Ingest(history, tracknum, company, rows) == (history, [])
    decreases |rows|
  {
    if rows != [] {
      var prefix := rows[..|rows| - 1];
      assert forall x :: x in prefix ==> x in rows;
      IngestStored(history, tracknum, company, prefix);
    }
  }

  /** Ingestion is idempotent: the same snapshot a second time stores and reports nothing. */
  lemma IngestIdempotent(history: seq<InfoRow>, tracknum: string, company: string, rows: seq<Row>)
    ensures var h := Ingest(history, tracknum, company, rows).0;
            Ingest(h, tracknum, company, rows) == (h, [])
  {
    IngestStoresAll(history, tracknum, company, rows);
    IngestStored(Ingest(history, tracknum, company, rows).0, tracknum, company, rows);
  }

  /** A duplicate-free history stays duplicate-free through ingestion. */
  lemma {:induction false} IngestKeepsDistinct(history: seq<InfoRow>, tracknum: string, company: string, rows: seq<Row>)
    requires NoDuplicates(history)
    ensures NoDuplicates(Ingest(history, tracknum, company, rows).0)
    decreases |rows|
  {
    if rows != [] {
      var prefix := rows[..|rows| - 1];
      IngestKeepsDistinct(history, tracknum, company, prefix);
      InsertIfAbsentKeepsDistinct(Ingest(history, tracknum, company, prefix).0, Stamp(tracknum, company, rows[|rows| - 1]));
    }
  }

  // ------------------------------------------------------------------
  // One firing of the job.

  /**
   * `_update_tracking` on values: the history afterwards and the messages
   * sent. A failed or empty fetch does nothing; otherwise the new events, if
   * any, go to every subscriber of the key.
   */
  function Poll(history: seq<InfoRow>, t: seq<Subscription>, tracknum: string, company: string, info: Option<seq<Row>>)
    : (seq<InfoRow>, seq<Message>)
  {
    if info.None? || info.value == [] then (history, [])
    else
      var ing := Ingest(history, tracknum, company, info.value);
      if ing.1 == [] then (ing.0, [])
      else (ing.0, Fanout(t, SubscribersOf(t, tracknum, company), tracknum, company, Some(ing.1), true).0)
  }

  /** A failed or empty fetch stores and sends nothing. */
  lemma PollFailedFetch(history: seq<InfoRow>, t: seq<Subscription>, tracknum: string, company: string, info: Option<seq<Row>>)
    requires info.None? || info.value == []
    ensures Poll(history, t, tracknum, company, info) == (history, [])
  {
  }

  /**
   * A successful fetch sends exactly when some event is new: then one message
   * to each subscriber row of the key, in table order, each carrying all the
   * new events in fetched order under the "new information" header.
   */
  lemma PollNotifiesSubscribers(history: seq<InfoRow>, t: seq<Subscription>, tracknum: string, company: string, rows: seq<Row>)
    requires rows != []
    ensures var newInfo := Ingest(history, tracknum, company, rows).1;
            var sent := Poll(history, t, tracknum, company, Some(rows)).1;
            var ids := SubscribersOf(t, tracknum, company);
            && (newInfo == [] ==> sent == [])
            && (newInfo != [] ==> |sent| == |ids|)
            && (newInfo != [] ==>
                  forall k :: 0 <= k < |ids| ==>
                    NameFor(t, ids[k], tracknum, company).Some? &&
                    sent[k] == Message(ids[k], UpdateText(true, NameFor(t, ids[k], tracknum, company).value, tracknum, EventsText(newInfo))))
  {
    var newInfo := Ingest(history, tracknum, company, rows).1;
    if newInfo != [] {
      FanOutToSubscribersCompletes(t, tracknum, company, true, EventsText(newInfo));
      DeliverMessages(t, SubscribersOf(t, tracknum, company), tracknum, company, true, EventsText(newInfo));
    }
  }

  /** Polling twice with the same carrier answer: the second poll stores and sends nothing. */
  lemma PollIdempotent(history: seq<InfoRow>, t: seq<Subscription>, tracknum: string, company: string, info: Option<seq<Row>>)
    ensures var h := Poll(history, t, tracknum, company, info).0;
            Poll(h, t, tracknum, company, info) == (h, [])
  {
    if info.Some? && info.value != [] {
      IngestIdempotent(history, tracknum, company, info.value);
    }
  }

  /** Unfolding helper for the concrete scenario below: the loop over `rows + [row]`. */
  lemma IngestStep(history: seq<InfoRow>, tracknum: string, company: string, rows: seq<Row>, row: Row)
    ensures var before := Ingest(history, tracknum, company, rows);
            var s := Stamp(tracknum, company, row);
            Ingest(history, tracknum, company, rows + [row]) ==
              (InsertIfAbsent(before.0, s), if s in before.0 then before.1 else before.1 + [row])
  {
    assert (rows + [row])[..|rows|] == rows;
  }

  /** Answer [a] and then [a, b], for distinct events: the first run stores and
      reports a; the second reports only b, and the history holds both. */
  lemma IngestTwoSnapshots(tracknum: string, company: string, a: Row, b: Row)
    requires a != b
    ensures var sa, sb := Stamp(tracknum, company, a), Stamp(tracknum, company, b);
            && Ingest([], tracknum, company, [a]) == ([sa], [a])
            && Ingest([sa], tracknum, company, [a, b]) == ([sa, sb], [b])
  {
    var sa, sb := Stamp(tracknum, company, a), Stamp(tracknum, company, b);
    assert sb != sa by {
      assert Unstamp(sa) == a && Unstamp(sb) == b;
    }
    IngestStep([], tracknum, company, [], a);
    assert [] + [a] == [a];
    assert InsertIfAbsent([], sa) == [sa];
    IngestStep([sa], tracknum, company, [], a);
    assert Ingest([sa], tracknum, company, []) == ([sa], []);
    assert sa in [sa];
    assert Ingest([sa], tracknum, company, [a]) == ([sa], []);
    IngestStep([sa], tracknum, company, [a], b);
    assert [a] + [b] == [a, b];
    assert sb !in [sa];
    assert InsertIfAbsent([sa], sb) == [sa, sb];
    assert [] + [b] == [b];
  }

  // ------------------------------------------------------------------

  class Sched {
    /** The job store of the background scheduler, by job id. */
    var jobs: map<string, Job>
    const db: Database
    const bot: Bot

    /** The bot that sends the updates reads the same store. */
    ghost predicate Valid()
    {
      bot.db == db
    }

    /** Starts the scheduler and re-adds a job for every stored subscription
        (`_add_existing_tracknums`); nothing is sent. */
    constructor (db: Database, bot: Bot)
      requires bot.db == db
      modifies bot`outbox
      ensures Valid() && this.db == db && this.bot == bot
      ensures jobs == EnsureJobs(map[], Map(db.trackNums, KeyOf))
      ensures bot.outbox == old(bot.outbox)
    {
      this.db := db;
      this.bot := bot;
      jobs := map[];
      new;
      AddExistingTracknums();
    }

    /**
     * `add_tracknum_job`: adds a job for the key unless its id is taken. When
     * it is taken and `id` is truthy, sends that chat the carrier's current
     * answer (`fetched`) as existing information; `ok` is false when that
     * send raised.
     */
    method AddTracknumJob(id: Option<int>, tracknum: string, company: string, fetched: Option<seq<Row>>)
      returns (ok: bool)
      requires Valid()
      modifies this`jobs, bot`outbox
      ensures jobs == EnsureJob(old(jobs), tracknum, company)
      ensures JobId(tracknum, company) in old(jobs) && TruthyId(id) ==>
                bot.outbox == old(bot.outbox) + Fanout(db.trackNums, [id.value], tracknum, company, fetched, false).0 &&
                ok == Fanout(db.trackNums, [id.value], tracknum, company, fetched, false).1
      ensures !(JobId(tracknum, company) in old(jobs) && TruthyId(id)) ==> ok && bot.outbox == old(bot.outbox)
    {
      if JobId(tracknum, company) !in jobs {
        jobs := jobs[JobId(tracknum, company) := Job(tracknum, company, JobInterval, true)];
        ok := true;
      } else if id.Some? && id.value != 0 {
        ok := bot.SendUpdate([id.value], tracknum, company, fetched, false);
      } else {
        ok := true;
      }
    }

    /** `del_tracknum_job`: removes the job with the key's id and no other. */
    method DelTracknumJob(tracknum: string, company: string)
      modifies this`jobs
      ensures jobs == old(jobs) - {JobId(tracknum, company)}
    {
      jobs := jobs - {JobId(tracknum, company)};
    }

    /** `_add_existing_tracknums`: a job for every (tracknum, company) of the
        subscription table, without sending anything. */
    method AddExistingTracknums()
      requires Valid()
      modifies this`jobs, bot`outbox
      ensures jobs == EnsureJobs(old(jobs), Map(db.trackNums, KeyOf))
      ensures bot.outbox == old(bot.outbox)
    {
      var tracknumList := db.GetTracknumsAndCompany();
      assert tracknumList == Map(db.trackNums, KeyOf);
      if tracknumList != [] {
        for k := 0 to |tracknumList|
          invariant jobs == EnsureJobs(old(jobs), tracknumList[..k])
          invariant bot.outbox == old(bot.outbox)
        {
          assert tracknumList[..k + 1][..k] == tracknumList[..k];
          var _ := AddTracknumJob(None, tracknumList[k].0, tracknumList[k].1, None);
        }
        assert tracknumList[..|tracknumList|] == tracknumList;
      }
    }

    /** `_update_tracking` with the carrier's answer `info`. */
    method UpdateTracking(tracknum: string, company: string, info: Option<seq<Row>>)
      requires Valid()
      modifies db`trackInfo, bot`outbox
      ensures db.trackInfo == Poll(old(db.trackInfo), db.trackNums, tracknum, company, info).0
      ensures bot.outbox == old(bot.outbox) + Poll(old(db.trackInfo), db.trackNums, tracknum, company, info).1
    {
      if info.None? || info.value == [] {
        return;
      }
      var rows := info.value;
      var newInfo: seq<Row> := [];
      for k := 0 to |rows|
        invariant (db.trackInfo, newInfo) == Ingest(old(db.trackInfo), tracknum, company, rows[..k])
        invariant bot.outbox == old(bot.outbox)
      {
        assert rows[..k + 1][..k] == rows[..k];
        var row := rows[k];
        var isNewInfo := db.AddTracknumInfo(tracknum, row.date, company, row.description, row.location);
        if isNewInfo {
          newInfo := newInfo + [row];
        }
      }
      assert rows[..|rows|] == rows;
      if newInfo != [] {
        var ids := db.GetIdsForTracknum(tracknum, company);
        var _ := bot.SendUpdate(ids, tracknum, company, Some(newInfo), true);
      }
    }

    /** A timer firing of job `id`: the job polls the key it was created for;
        a removed job no longer fires. */
    method Fire(id: string, info: Option<seq<Row>>)
      requires Valid()
      modifies db`trackInfo, bot`outbox
      ensures id !in jobs ==> db.trackInfo == old(db.trackInfo) && bot.outbox == old(bot.outbox)
      ensures id in jobs ==>
                var p := Poll(old(db.trackInfo), db.trackNums, jobs[id].tracknum, jobs[id].company, info);
                db.trackInfo == p.0 && bot.outbox == old(bot.outbox) + p.1
    {
      if id in jobs {
        UpdateTracking(jobs[id].tracknum, jobs[id].company, info);
      }
    }
  }
}
