/**
 * The conversation steps of the bot that validate input or change the store
 * or the job registry: the tracking-number step and the name step of registration
 * (`get_name`, `final`) and the delete/info options of administration
 * (`option_handler`). What the user typed or pressed is a parameter; the
 * prompt the step answers with is its result.
 */
module Handlers {
  import opened Wrappers
  import opened Seqs
  import opened Database
  import opened Notify
  import opened Scheduler

  /** The outcome of `get_name`. */
  datatype TracknumReply =
    | EmptyTracknum                      // nothing typed: the number is asked again
    | TracknumTaken(name: string)        // the user already follows the key, under `name`
    | TracknumAccepted(tracknum: string) // the number is kept and a name is asked for

  /** The outcome of `final`. */
  datatype NameReply =
    | EmptyName                          // nothing typed: the name is asked again
    | NameTaken(tracknum: string)        // the user already uses the name, for `tracknum`
    | Registered(ok: bool)               // stored; `ok` is false when the job step raised

  /**
   * `get_name`: the tracking number `text` for `company` is refused when it is
   * empty or when the user already has a row for the key with a (non-empty)
   * name; nothing is written either way.
   */
  method GetName(db: Database, chatId: int, company: string, text: string) returns (reply: TracknumReply)
    ensures reply.EmptyTracknum? <==> text == ""
    ensures reply.TracknumTaken? <==> text != "" && TruthyString(NameFor(db.trackNums, chatId, text, company))
    ensures reply.TracknumTaken? ==> Some(reply.name) == NameFor(db.trackNums, chatId, text, company)
    ensures reply.TracknumAccepted? ==> reply.tracknum == text
  {
    if text == "" {
      return EmptyTracknum;
    }
    var found := db.CheckTracknumExists(chatId, text, company);
    if found.Some? && found.value != "" {
      return TracknumTaken(found.value);
    }
    reply := TracknumAccepted(text);
  }

  /**
   * `final`: the name `text` is refused when it is empty or already used by
   * the user; otherwise one subscription row is added (company lower-cased)
   * and then a job is ensured for the key, with the chat id, so that an
   * existing job makes the chat receive the carrier's current events
   * (`fetched`) as existing information.
   */
  method Final(sched: Sched, chatId: int, company: string, tracknum: string, text: string, fetched: Option<seq<Row>>)
    returns (reply: NameReply)
    requires sched.Valid()
    modifies sched.db`trackNums, sched`jobs, sched.bot`outbox
    ensures reply.EmptyName? <==> text == ""
    ensures reply.NameTaken? <==> text != "" && TruthyString(TracknumNamed(old(sched.db.trackNums), chatId, text))
    ensures reply.NameTaken? ==> Some(reply.tracknum) == TracknumNamed(old(sched.db.trackNums), chatId, text)
    ensures !reply.Registered? ==>
              sched.db.trackNums == old(sched.db.trackNums) && sched.jobs == old(sched.jobs) &&
              sched.bot.outbox == old(sched.bot.outbox)
    ensures reply.Registered? ==>
              && sched.db.trackNums == old(sched.db.trackNums) + [Subscription(chatId, tracknum, Lower(company), text)]
              && sched.jobs == EnsureJob(old(sched.jobs), tracknum, company)
              && (JobId(tracknum, company) in old(sched.jobs) && chatId != 0 ==>
                    var f := Fanout(sched.db.trackNums, [chatId], tracknum, company, fetched, false);
                    sched.bot.outbox == old(sched.bot.outbox) + f.0 && reply.ok == f.1)
              && (!(JobId(tracknum, company) in old(sched.jobs) && chatId != 0) ==>
                    sched.bot.outbox == old(sched.bot.outbox) && reply.ok)
  {
    if text == "" {
      return EmptyName;
    }
    var found := sched.db.CheckNameExists(chatId, text);
    if found.Some? && found.value != "" {
      return NameTaken(found.value);
    }
    sched.db.AddTracknum(chatId, tracknum, company, text);
    var ok := sched.AddTracknumJob(Some(chatId), tracknum, company, fetched);
    reply := Registered(ok);
  }

  /**
   * Registering a key whose job already runs, when the company is already
   * lower case (as the carrier codes are): if the carrier answered, the new
   * subscriber gets one message with the current events under the
   * existing-information header; if the request failed, iterating the missing
   * answer raises and nothing is sent.
   */
  lemma RegistrationOnExistingJobNotifies(t: seq<Subscription>, chatId: int, tracknum: string, company: string, name: string,
                                          fetched: Option<seq<Row>>)
    requires Lower(company) == company
    ensures var f := Fanout(t + [Subscription(chatId, tracknum, Lower(company), name)], [chatId], tracknum, company, fetched, false);
            && (f.1 <==> fetched.Some?)
            && (fetched.None? ==> f.0 == [])
            && (fetched.Some? ==> |f.0| == 1 && f.0[0].chatId == chatId && f.0[0].text[..|ExistingHeader|] == ExistingHeader)
  {
    if fetched.Some? {
      var rows := fetched.value;
      var t' := t + [Subscription(chatId, tracknum, Lower(company), name)];
      assert ForUserKey(chatId, tracknum, company)(t'[|t|]);
      NameForFirstRow(t', chatId, tracknum, company);
      DeliverCompletes(t', [chatId], tracknum, company, false, EventsText(rows));
      DeliverMessages(t', [chatId], tracknum, company, false, EventsText(rows));
      var n := NameFor(t', chatId, tracknum, company).value;
      HeaderTellsNewFromExisting(n, tracknum, EventsText(rows), false);
    }
  }

  /**
   * The lookups compare the company as given while the row stores it lower
   * cased: registering "OCA" on a key whose job exists finds no name for the
   * new subscriber, so the send raises and nothing is sent.
   */
  lemma RegistrationWithUpperCaseCompanyFindsNoName(chatId: int, rows: seq<Row>)
    ensures var t := [Subscription(chatId, "123", Lower("OCA"), "mi paquete")];
            Fanout(t, [chatId], "123", "OCA", Some(rows), false) == ([], false)
  {
    var t := [Subscription(chatId, "123", Lower("OCA"), "mi paquete")];
    assert Lower("OCA")[0] != 'O' by {
      LowerIsLower("OCA");
    }
    assert !ForUserKey(chatId, "123", "OCA")(t[0]);
    NameForFirstRow(t, chatId, "123", "OCA");
    DeliverCompletes(t, [chatId], "123", "OCA", false, EventsText(rows));
  }

  /**
   * `option_handler` for the choice `choice` on the key the user picked.
   * "delete": when no two rows carry the tracking number (checked first), the
   * key's job and history go; the user's rows for the tracking number always
   * go. "info": the key's stored history is sent to the user as existing
   * information; a key without history makes the send raise. Any other
   * choice does nothing. `ok` is false when the step raised.
   */
  method OptionHandler(sched: Sched, chatId: int, tracknum: string, company: string, choice: string)
    returns (ok: bool)
    requires sched.Valid()
    modifies sched.db`trackNums, sched.db`trackInfo, sched`jobs, sched.bot`outbox
    ensures choice == "delete" ==>
              && ok
              && sched.db.trackNums == Filter(old(sched.db.trackNums), Not(ForUserTracknum(chatId, tracknum)))
              && (SharedTracknum(old(sched.db.trackNums), tracknum) ==>
                    sched.jobs == old(sched.jobs) && sched.db.trackInfo == old(sched.db.trackInfo))
              && (!SharedTracknum(old(sched.db.trackNums), tracknum) ==>
                    sched.jobs == old(sched.jobs) - {JobId(tracknum, company)} &&
                    sched.db.trackInfo == Filter(old(sched.db.trackInfo), Not(InfoForKey(tracknum, company))))
              && sched.bot.outbox == old(sched.bot.outbox)
    ensures choice == "info" ==>
              && sched.db.trackNums == old(sched.db.trackNums)
              && sched.db.trackInfo == old(sched.db.trackInfo)
              && sched.jobs == old(sched.jobs)
              && var f := Fanout(sched.db.trackNums, [chatId], tracknum, company,
                                 ExistingInfo(sched.db.trackInfo, tracknum, company), false);
                 sched.bot.outbox == old(sched.bot.outbox) + f.0 && ok == f.1
    ensures choice != "delete" && choice != "info" ==>
              && ok
              && sched.db.trackNums == old(sched.db.trackNums)
              && sched.db.trackInfo == old(sched.db.trackInfo)
              && sched.jobs == old(sched.jobs)
              && sched.bot.outbox == old(sched.bot.outbox)
  {
    ok := true;
    if choice == "delete" {
      var others := sched.db.CheckAnyoneElseHasTracknum(tracknum, company);
      if !others {
        sched.DelTracknumJob(tracknum, company);
        sched.db.DelTracknumInfo(tracknum, company);
      }
      sched.db.DelTracknumUser(chatId, tracknum, company);
    }
    if choice == "info" {
      var info := sched.db.GetExistingInfo(tracknum, company);
      ok := sched.bot.SendUpdate([chatId], tracknum, company, info, false);
    }
  }

  /**
   * When the user holds a row for the tracking number and no other row
   * carries it, the delete leaves no row with that tracking number, so the
   * job and history it removes have no subscriber left.
   */
  lemma DeleteOfLastSubscriberLeavesNone(t: seq<Subscription>, chatId: int, tracknum: string, i: nat)
    requires i < |t| && t[i].user == chatId && t[i].tracknum == tracknum
    requires !SharedTracknum(t, tracknum)
    ensures forall s :: s in Filter(t, Not(ForUserTracknum(chatId, tracknum))) ==> s.tracknum != tracknum
  {
    forall s | s in Filter(t, Not(ForUserTracknum(chatId, tracknum))) ensures s.tracknum != tracknum {
      var j :| 0 <= j < |t| && t[j] == s;
    }
  }

  /**
   * The count behind the delete ignores users and companies. User `u` follows
   * "123" with "oca" and user `v` follows it with "otra": the number is
   * shared, so the job of ("123", "oca") stays, yet no row for that key is
   * left after `u` deletes; when `u` and `v` are the same user no row is left
   * at all. This needs the number to be followed under two carrier codes:
   * with "oca" alone every row of the number is of the same key, so a shared
   * number means another subscriber of the key remains.
   */
  lemma DeleteMayKeepOrphanJob(u: int, v: int)
    ensures var t := [Subscription(u, "123", "oca", "a"), Subscription(v, "123", "otra", "b")];
            var rest := Filter(t, Not(ForUserTracknum(u, "123")));
            && SharedTracknum(t, "123")
            && (forall s :: s in rest ==> !(s.tracknum == "123" && s.company == "oca"))
            && (u == v ==> rest == [])
            && (u != v ==> rest == [t[1]])
  {
    var t := [Subscription(u, "123", "oca", "a"), Subscription(v, "123", "otra", "b")];
    assert t[0].tracknum == "123" && t[1].tracknum == "123";
    assert "otra" != "oca" by {
      assert |"otra"| != |"oca"|;
    }
    FilterSingle(t[0], Not(ForUserTracknum(u, "123")));
    FilterSingle(t[1], Not(ForUserTracknum(u, "123")));
    FilterAppend([t[0]], [t[1]], Not(ForUserTracknum(u, "123")));
    assert t == [t[0]] + [t[1]];
  }
}
