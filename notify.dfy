/**
 * The notification fan-out of the bot (`send_update`): one text per recipient,
 * made of a header that says whether the events are new, the recipient's name
 * for the parcel, the tracking number and one block per event.
 */
module Notify {
  import opened Wrappers
  import opened Database

  /** A text the bot sends to a chat. */
  datatype Message = Message(chatId: int, text: string)

  const NewHeader: string := "Tenés nueva información de tu envío: "
  const ExistingHeader: string := "Información existente de tu envío: "

  function Header(isNew: bool): string
  {
    if isNew then NewHeader else ExistingHeader
  }

  /** The block of one event: date, description and location, each on its line, then a blank line. */
  function EventBlock(r: Row): string
  {
    r.date + "\n" + r.description + "\n" + r.location + "\n\n"
  }

  /** The event list of a message: the blocks of the rows, in row order. */
  function EventsText(rows: seq<Row>): string
  {
    if rows == [] then "" else EventsText(rows[..|rows| - 1]) + EventBlock(rows[|rows| - 1])
  }

  /** The text sent to one recipient. */
  function UpdateText(isNew: bool, name: string, tracknum: string, listText: string): string
  {
    Header(isNew) + name + " (" + tracknum + ")\n" + "\n" + listText
  }

  /**
   * The messages of a fan-out and whether it completed. Recipients are served
   * in list order; the first recipient without a subscription row for the key
   * makes the name lookup raise, so nobody after it is served. The send
   * itself is taken to succeed.
   */
  function Deliver(t: seq<Subscription>, ids: seq<int>, tracknum: string, company: string, isNew: bool, listText: string)
    : (seq<Message>, bool)
    decreases |ids|
  {
    if ids == [] then ([], true)
    else
      match NameFor(t, ids[0], tracknum, company)
      case None => ([], false)
      case Some(name) =>
        var rest := Deliver(t, ids[1..], tracknum, company, isNew, listText);
        ([Message(ids[0], UpdateText(isNew, name, tracknum, listText))] + rest.0, rest.1)
  }

  /** A fan-out completes exactly when every recipient has a name for the key,
      and then sends one message per recipient. Otherwise it stops at the first
      recipient without a name, having served exactly those before it. */
  lemma {:induction false} DeliverCompletes(t: seq<Subscription>, ids: seq<int>, tracknum: string, company: string, isNew: bool, listText: string)
    ensures var r := Deliver(t, ids, tracknum, company, isNew, listText);
            && (r.1 <==> forall k :: 0 <= k < |ids| ==> NameFor(t, ids[k], tracknum, company).Some?)
            && (r.1 ==> |r.0| == |ids|)
            && (!r.1 ==> |r.0| < |ids| && NameFor(t, ids[|r.0|], tracknum, company).None?)
    decreases |ids|
  {
    if ids != [] && NameFor(t, ids[0], tracknum, company).Some? {
      var rest := Deliver(t, ids[1..], tracknum, company, isNew, listText);
      DeliverCompletes(t, ids[1..], tracknum, company, isNew, listText);
      assert forall k :: 1 <= k < |ids| ==> ids[k] == ids[1..][k - 1];
      if !rest.1 {
        assert ids[1 + |rest.0|] == ids[1..][|rest.0|];
      }
    }
  }

  /** The k-th message goes to the k-th recipient, with that recipient's name for the key. */
  lemma {:induction false} DeliverMessages(t: seq<Subscription>, ids: seq<int>, tracknum: string, company: string, isNew: bool, listText: string)
    ensures var r := Deliver(t, ids, tracknum, company, isNew, listText);
            && |r.0| <= |ids|
            && forall k :: 0 <= k < |r.0| ==>
                 NameFor(t, ids[k], tracknum, company).Some? &&
                 r.0[k] == Message(ids[k], UpdateText(isNew, NameFor(t, ids[k], tracknum, company).value, tracknum, listText))
    decreases |ids|
  {
    if ids != [] && NameFor(t, ids[0], tracknum, company).Some? {
      DeliverMessages(t, ids[1..], tracknum, company, isNew, listText);
      assert forall k :: 1 <= k < |ids| ==> ids[k] == ids[1..][k - 1];
    }
  }

  /** What `send_update` sends, and whether it returns normally: iterating a
      missing event list raises before anything is sent. */
  function Fanout(t: seq<Subscription>, ids: seq<int>, tracknum: string, company: string, info: Option<seq<Row>>, isNew: bool)
    : (seq<Message>, bool)
  {
    if info.None? then ([], false) else Deliver(t, ids, tracknum, company, isNew, EventsText(info.value))
  }

  /** The event list keeps the order of the events: rendering distributes over concatenation. */
  lemma {:induction false} EventsTextAppend(a: seq<Row>, b: seq<Row>)
    ensures EventsText(a + b) == EventsText(a) + EventsText(b)
    decreases |b|
  {
    if b == [] {
      assert a + b == a;
    } else {
      assert (a + b)[..|a + b| - 1] == a + b[..|b| - 1];
      EventsTextAppend(a, b[..|b| - 1]);
    }
  }

  /** A new-events text and an existing-events text never coincide, and each starts with its header. */
  lemma HeaderTellsNewFromExisting(name: string, tracknum: string, listText: string, isNew: bool)
    ensures UpdateText(isNew, name, tracknum, listText)[..|Header(isNew)|] == Header(isNew)
    ensures UpdateText(true, name, tracknum, listText) != UpdateText(false, name, tracknum, listText)
  {
    assert UpdateText(true, name, tracknum, listText)[0] == 'T';
    assert UpdateText(false, name, tracknum, listText)[0] == 'I';
  }

  /** A fan-out to the subscribers of a key reaches all of them: one message per
      subscriber row, in table order. */
  lemma FanOutToSubscribersCompletes(t: seq<Subscription>, tracknum: string, company: string, isNew: bool, listText: string)
    ensures var ids := SubscribersOf(t, tracknum, company);
            var d := Deliver(t, ids, tracknum, company, isNew, listText);
            d.1 && |d.0| == |ids| && forall k :: 0 <= k < |ids| ==> d.0[k].chatId == ids[k]
  {
    var ids := SubscribersOf(t, tracknum, company);
    forall k | 0 <= k < |ids| ensures NameFor(t, ids[k], tracknum, company).Some? {
      SubscribersAreNamed(t, tracknum, company, ids[k]);
    }
    DeliverCompletes(t, ids, tracknum, company, isNew, listText);
    DeliverMessages(t, ids, tracknum, company, isNew, listText);
  }

  class Bot {
    const db: Database
    /** Every message sent so far, in sending order. */
    var outbox: seq<Message>

    constructor (db: Database)
      ensures this.db == db && outbox == []
    {
      this.db := db;
      outbox := [];
    }

    /**
     * `send_update`: renders the events once, then sends one message per chat
     * id. `info == None` raises before anything is sent; a chat id without a
     * row for the key raises at its turn. `ok` is false when it raised.
     */
    method SendUpdate(chatIds: seq<int>, tracknum: string, company: string, info: Option<seq<Row>>, isNew: bool)
      returns (ok: bool)
      modifies this`outbox
      ensures outbox == old(outbox) + Fanout(db.trackNums, chatIds, tracknum, company, info, isNew).0
      ensures ok == Fanout(db.trackNums, chatIds, tracknum, company, info, isNew).1
    {
      if info.None? {
        return false;
      }
      var rows := info.value;
      var listText := "";
      for k := 0 to |rows|
        invariant listText == EventsText(rows[..k])
      {
        assert rows[..k + 1][..k] == rows[..k];
        listText := listText + EventBlock(rows[k]);
      }
      assert rows[..|rows|] == rows;

      var answerText: string;
      if isNew {
        answerText := NewHeader;
      } else {
        answerText := ExistingHeader;
      }
      ghost var all := Deliver(db.trackNums, chatIds, tracknum, company, isNew, listText);
      assert chatIds[0..] == chatIds;
      for i := 0 to |chatIds|
        invariant old(outbox) + all.0 == outbox + Deliver(db.trackNums, chatIds[i..], tracknum, company, isNew, listText).0
        invariant all.1 == Deliver(db.trackNums, chatIds[i..], tracknum, company, isNew, listText).1
      {
        var name := db.GetTracknumName(tracknum, chatIds[i], company);
        if name.None? {
          assert Deliver(db.trackNums, chatIds[i..], tracknum, company, isNew, listText) == ([], false);
          assert outbox == old(outbox) + all.0;
          return false;
        }
        var text := answerText + name.value + " (" + tracknum + ")\n" + "\n" + listText;
        assert text == UpdateText(isNew, name.value, tracknum, listText);
        assert chatIds[i..][1..] == chatIds[i + 1..];
        ghost var rest := Deliver(db.trackNums, chatIds[i + 1..], tracknum, company, isNew, listText);
        assert Deliver(db.trackNums, chatIds[i..], tracknum, company, isNew, listText) == ([Message(chatIds[i], text)] + rest.0, rest.1);
        assert old(outbox) + all.0 == (outbox + [Message(chatIds[i], text)]) + rest.0;
        outbox := outbox + [Message(chatIds[i], text)];
      }
      assert chatIds[|chatIds|..] == [];
      ok := true;
    }
  }
}
