/**
 * The subscription and event store: two tables, `track_nums` (who follows
 * which parcel under which name) and `track_info` (the event history of each
 * parcel). Each table is a sequence of rows in insertion order; every SQL
 * statement of the store becomes an operation on those sequences.
 */
module Database {
  import opened Wrappers
  import opened Seqs

  /** A row of `track_nums`. */
  datatype Subscription = Subscription(user: int, tracknum: string, company: string, name: string)

  /** A row of `track_info`: a carrier event stamped with its tracking key. */
  datatype InfoRow = InfoRow(tracknum: string, company: string, date: string, description: string, location: string)

  /** A carrier event as the provider and `get_existing_info` hand it out. */
  datatype Row = Row(date: string, description: string, location: string)

  function Stamp(tracknum: string, company: string, r: Row): InfoRow
  {
    InfoRow(tracknum, company, r.date, r.description, r.location)
  }

  function Unstamp(i: InfoRow): Row
  {
    Row(i.date, i.description, i.location)
  }

  // ------------------------------------------------------------------
  // Lower-casing (`str.lower()`), on ASCII letters.

  predicate IsUpper(c: char)
  {
    'A' <= c <= 'Z'
  }

  function LowerChar(c: char): (d: char)
    ensures !IsUpper(d)
    ensures !IsUpper(c) ==> d == c
  {
    if IsUpper(c) then (c as int - 'A' as int + 'a' as int) as char else c
  }

  function Lower(s: string): (r: string)
    ensures |r| == |s|
    ensures forall i :: 0 <= i < |s| ==> r[i] == LowerChar(s[i])
  {
    if s == [] then [] else Lower(s[..|s| - 1]) + [LowerChar(s[|s| - 1])]
  }

  /** Lower-casing leaves no upper-case letter and is idempotent. */
  lemma LowerIsLower(s: string)
    ensures forall i :: 0 <= i < |s| ==> !IsUpper(Lower(s)[i])
    ensures Lower(Lower(s)) == Lower(s)
  {
  }

  /** A name without upper-case letters is its own lower-case form. */
  lemma LowerFixes(s: string)
    requires forall i :: 0 <= i < |s| ==> !IsUpper(s[i])
    ensures Lower(s) == s
  {
  }

  // ------------------------------------------------------------------
  // The WHERE clauses of the store, as predicates on rows.

  function ForUserTracknum(user: int, tracknum: string): Subscription -> bool
  {
    (s: Subscription) => s.user == user && s.tracknum == tracknum
  }

  function ForUserKey(user: int, tracknum: string, company: string): Subscription -> bool
  {
    (s: Subscription) => s.user == user && s.tracknum == tracknum && s.company == company
  }

  function ForUserName(user: int, name: string): Subscription -> bool
  {
    (s: Subscription) => s.user == user && s.name == name
  }

  function ForUser(user: int): Subscription -> bool
  {
    (s: Subscription) => s.user == user
  }

  function ForTracknum(tracknum: string): Subscription -> bool
  {
    (s: Subscription) => s.tracknum == tracknum
  }

  function ForKey(tracknum: string, company: string): Subscription -> bool
  {
    (s: Subscription) => s.tracknum == tracknum && s.company == company
  }

  function InfoForKey(tracknum: string, company: string): InfoRow -> bool
  {
    (i: InfoRow) => i.tracknum == tracknum && i.company == company
  }

  function SameInfo(r: InfoRow): InfoRow -> bool
  {
    (i: InfoRow) => i == r
  }

  // ------------------------------------------------------------------
  // Projections of the SELECT lists.

  function UserOf(s: Subscription): int { s.user }
  function KeyOf(s: Subscription): (string, string) { (s.tracknum, s.company) }
  function TracknumAndName(s: Subscription): (string, string) { (s.tracknum, s.name) }

  // ------------------------------------------------------------------
  // Specification of the insert-if-absent of `add_tracknum_info`.

  /** The history after offering `r`: `r` is appended unless an identical row is stored. */
  function InsertIfAbsent(info: seq<InfoRow>, r: InfoRow): (info': seq<InfoRow>)
  {
    if r in info then info else info + [r]
  }

  /** After the insert the row is stored, nothing stored before is lost, and the
      table grows by one row exactly when the row was new. */
  lemma InsertIfAbsentStores(info: seq<InfoRow>, r: InfoRow)
    ensures r in InsertIfAbsent(info, r)
    ensures forall x :: x in info ==> x in InsertIfAbsent(info, r)
    ensures |InsertIfAbsent(info, r)| == |info| + (if r in info then 0 else 1)
  {
  }

  /** A duplicate-free history stays duplicate-free. */
  lemma InsertIfAbsentKeepsDistinct(info: seq<InfoRow>, r: InfoRow)
    requires NoDuplicates(info)
    ensures NoDuplicates(InsertIfAbsent(info, r))
  {
  }

  /** Offering the rows of `rs` one after the other. */
  function InsertAll(info: seq<InfoRow>, rs: seq<InfoRow>): seq<InfoRow>
    decreases |rs|
  {
    if rs == [] then info else InsertAll(InsertIfAbsent(info, rs[0]), rs[1..])
  }

  /** Any sequence of `add_tracknum_info` calls keeps a duplicate-free history
      duplicate-free, and every offered row ends up stored. */
  lemma {:induction false} InsertAllKeepsDistinct(info: seq<InfoRow>, rs: seq<InfoRow>)
    requires NoDuplicates(info)
    ensures NoDuplicates(InsertAll(info, rs))
    ensures forall k :: 0 <= k < |rs| ==> rs[k] in InsertAll(info, rs)
    decreases |rs|
  {
    if rs != [] {
      InsertIfAbsentKeepsDistinct(info, rs[0]);
      InsertAllKeepsDistinct(InsertIfAbsent(info, rs[0]), rs[1..]);
      InsertAllKeeps(InsertIfAbsent(info, rs[0]), rs[1..], rs[0]);
      forall k | 1 <= k < |rs| ensures rs[k] in InsertAll(info, rs) {
        assert rs[k] == rs[1..][k - 1];
      }
    }
  }

  /** Offering more rows never loses a stored row. */
  lemma {:induction false} InsertAllKeeps(info: seq<InfoRow>, rs: seq<InfoRow>, x: InfoRow)
    requires x in info
    ensures x in InsertAll(info, rs)
    decreases |rs|
  {
    if rs != [] {
      InsertAllKeeps(InsertIfAbsent(info, rs[0]), rs[1..], x);
    }
  }

  // ------------------------------------------------------------------

  class Database {
    var trackNums: seq<Subscription>
    var trackInfo: seq<InfoRow>

    /** Opens the store with the tables it already holds on disk. */
    constructor (nums: seq<Subscription>, info: seq<InfoRow>)
      ensures trackNums == nums && trackInfo == info
    {
      trackNums := nums;
      trackInfo := info;
    }

    /** `add_tracknum`: one new subscription row with the company lower-cased;
        no uniqueness check of its own. */
    method AddTracknum(chatId: int, tracknum: string, company: string, name: string)
      modifies this`trackNums
      ensures trackNums == old(trackNums) + [Subscription(chatId, tracknum, Lower(company), name)]
    {
      trackNums := trackNums + [Subscription(chatId, tracknum, Lower(company), name)];
    }

    /** `add_tracknum_info`: stores the event unless the identical 5-tuple is
        stored, and reports whether it stored it. */
    method AddTracknumInfo(tracknum: string, date: string, company: string, description: string, location: string)
      returns (isNew: bool)
      modifies this`trackInfo
      ensures isNew <==> InfoRow(tracknum, company, date, description, location) !in old(trackInfo)
      ensures trackInfo == InsertIfAbsent(old(trackInfo), InfoRow(tracknum, company, date, description, location))
    {
      var found := CheckTracknumInfoExists(tracknum, date, company, description, location);
      if !found {
        trackInfo := trackInfo + [InfoRow(tracknum, company, date, description, location)];
        isNew := true;
      } else {
        isNew := false;
      }
    }

    /** `del_tracknum_user`: the WHERE clause names the user and the tracking
        number only, so the rows of every company go. */
    method DelTracknumUser(chatId: int, tracknum: string, company: string)
      modifies this`trackNums
      ensures trackNums == Filter(old(trackNums), Not(ForUserTracknum(chatId, tracknum)))
      ensures forall i :: 0 <= i < |trackNums| ==> !(trackNums[i].user == chatId && trackNums[i].tracknum == tracknum)
      ensures forall i :: 0 <= i < |old(trackNums)| && (old(trackNums)[i].user != chatId || old(trackNums)[i].tracknum != tracknum)
                ==> old(trackNums)[i] in trackNums
    {
      trackNums := Filter(trackNums, Not(ForUserTracknum(chatId, tracknum)));
    }

    /** `del_tracknum_info`: drops the history of one tracking key. */
    method DelTracknumInfo(tracknum: string, company: string)
      modifies this`trackInfo
      ensures trackInfo == Filter(old(trackInfo), Not(InfoForKey(tracknum, company)))
      ensures forall i :: 0 <= i < |trackInfo| ==> !(trackInfo[i].tracknum == tracknum && trackInfo[i].company == company)
      ensures forall i :: 0 <= i < |old(trackInfo)| && (old(trackInfo)[i].tracknum != tracknum || old(trackInfo)[i].company != company)
                ==> old(trackInfo)[i] in trackInfo
    {
      trackInfo := Filter(trackInfo, Not(InfoForKey(tracknum, company)));
    }

    /** `check_tracknum_exists`: the name of the first row for (user, tracknum, company). */
    method CheckTracknumExists(chatId: int, tracknum: string, company: string) returns (name: Option<string>)
      ensures name == NameFor(trackNums, chatId, tracknum, company)
      ensures name.None? <==> forall i :: 0 <= i < |trackNums| ==> !ForUserKey(chatId, tracknum, company)(trackNums[i])
      ensures name.Some? ==> exists i :: 0 <= i < |trackNums| && trackNums[i].name == name.value &&
                                         ForUserKey(chatId, tracknum, company)(trackNums[i]) &&
                                         forall j :: 0 <= j < i ==> !ForUserKey(chatId, tracknum, company)(trackNums[j])
    {
      var data := First(trackNums, ForUserKey(chatId, tracknum, company));
      if data.None? {
        name := None;
      } else {
        name := Some(data.value.name);
      }
    }

    /** `check_name_exists`: the tracking number of the first row for (user, name). */
    method CheckNameExists(chatId: int, name: string) returns (tracknum: Option<string>)
      ensures tracknum == TracknumNamed(trackNums, chatId, name)
      ensures tracknum.None? <==> forall i :: 0 <= i < |trackNums| ==> !ForUserName(chatId, name)(trackNums[i])
      ensures tracknum.Some? ==> exists i :: 0 <= i < |trackNums| && trackNums[i].tracknum == tracknum.value &&
                                             ForUserName(chatId, name)(trackNums[i]) &&
                                             forall j :: 0 <= j < i ==> !ForUserName(chatId, name)(trackNums[j])
    {
      var data := First(trackNums, ForUserName(chatId, name));
      if data.None? {
        tracknum := None;
      } else {
        tracknum := Some(data.value.tracknum);
      }
    }

    /** `check_anyone_else_has_tracknum`: more than one row carries the tracking
        number, whatever its company (the company argument is not used). */
    method CheckAnyoneElseHasTracknum(tracknum: string, company: string) returns (others: bool)
      ensures others <==> SharedTracknum(trackNums, tracknum)
    {
      var data := Filter(trackNums, ForTracknum(tracknum));
      FilterHasTwo(trackNums, ForTracknum(tracknum));
      if |data| <= 1 {
        others := false;
      } else {
        others := true;
      }
    }

    /** `_check_tracknum_info_exists`: is the identical 5-tuple stored? */
    method CheckTracknumInfoExists(tracknum: string, date: string, company: string, description: string, location: string)
      returns (found: bool)
      ensures found <==> InfoRow(tracknum, company, date, description, location) in trackInfo
    {
      var r := InfoRow(tracknum, company, date, description, location);
      var dataExists := First(trackInfo, SameInfo(r));
      found := dataExists.Some?;
    }

    /** `get_user_tracknums`: (tracknum, name) of each row of the user, in table order. */
    method GetUserTracknums(chatId: int) returns (pairs: seq<(string, string)>)
      ensures pairs == Map(Filter(trackNums, ForUser(chatId)), TracknumAndName)
      ensures forall k :: 0 <= k < |pairs| ==>
                exists i :: 0 <= i < |trackNums| && trackNums[i].user == chatId &&
                            pairs[k] == (trackNums[i].tracknum, trackNums[i].name)
      ensures forall i :: 0 <= i < |trackNums| && trackNums[i].user == chatId ==>
                (trackNums[i].tracknum, trackNums[i].name) in pairs
    {
      var rows := Filter(trackNums, ForUser(chatId));
      pairs := Map(rows, TracknumAndName);
      forall i | 0 <= i < |trackNums| && trackNums[i].user == chatId
        ensures (trackNums[i].tracknum, trackNums[i].name) in pairs
      {
        var k :| 0 <= k < |rows| && rows[k] == trackNums[i];
        assert pairs[k] == (trackNums[i].tracknum, trackNums[i].name);
      }
    }

    /** `get_tracknums_and_company`: (tracknum, company) of every row, duplicates included. */
    method GetTracknumsAndCompany() returns (keys: seq<(string, string)>)
      ensures |keys| == |trackNums|
      ensures forall i :: 0 <= i < |trackNums| ==> keys[i] == (trackNums[i].tracknum, trackNums[i].company)
    {
      keys := Map(trackNums, KeyOf);
    }

    /** `get_ids_for_tracknum`: the user of each row of the key, one per row, in table order. */
    method GetIdsForTracknum(tracknum: string, company: string) returns (ids: seq<int>)
      ensures ids == Map(Filter(trackNums, ForKey(tracknum, company)), UserOf)
      ensures forall k :: 0 <= k < |ids| ==>
                exists i :: 0 <= i < |trackNums| && ForKey(tracknum, company)(trackNums[i]) && trackNums[i].user == ids[k]
      ensures forall i :: 0 <= i < |trackNums| && ForKey(tracknum, company)(trackNums[i]) ==> trackNums[i].user in ids
    {
      var dataTuple := Filter(trackNums, ForKey(tracknum, company));
      ids := [];
      for k := 0 to |dataTuple|
        invariant ids == Map(dataTuple[..k], UserOf)
      {
        assert dataTuple[..k + 1][..k] == dataTuple[..k];
        ids := ids + [dataTuple[k].user];
      }
      assert dataTuple[..|dataTuple|] == dataTuple;
      forall i | 0 <= i < |trackNums| && ForKey(tracknum, company)(trackNums[i])
        ensures trackNums[i].user in ids
      {
        var k :| 0 <= k < |dataTuple| && dataTuple[k] == trackNums[i];
        assert ids[k] == trackNums[i].user;
      }
    }

    /** `get_tracknum_name`: the name of the first row for (user, tracknum, company);
        `None` stands for the `TypeError` of indexing a missing row. */
    method GetTracknumName(tracknum: string, chatId: int, company: string) returns (name: Option<string>)
      ensures name.None? <==> forall i :: 0 <= i < |trackNums| ==> !ForUserKey(chatId, tracknum, company)(trackNums[i])
      ensures name == NameFor(trackNums, chatId, tracknum, company)
    {
      var data := First(trackNums, ForUserKey(chatId, tracknum, company));
      if data.None? {
        name := None;
      } else {
        name := Some(data.value.name);
      }
    }

    /** `get_tracknum_and_company_by_name`: the key of the first row for (user, name). */
    method GetTracknumAndCompanyByName(chatId: int, name: string) returns (key: Option<(string, string)>)
      ensures key.None? <==> forall i :: 0 <= i < |trackNums| ==> !ForUserName(chatId, name)(trackNums[i])
      ensures key.Some? ==> exists i :: 0 <= i < |trackNums| && key.value == (trackNums[i].tracknum, trackNums[i].company) &&
                                        ForUserName(chatId, name)(trackNums[i]) &&
                                        forall j :: 0 <= j < i ==> !ForUserName(chatId, name)(trackNums[j])
    {
      var data := First(trackNums, ForUserName(chatId, name));
      if data.None? {
        key := None;
      } else {
        key := Some((data.value.tracknum, data.value.company));
      }
    }

    /** `get_existing_info`: the key's history in stored order, or `None` when it has none. */
    method GetExistingInfo(tracknum: string, company: string) returns (info: Option<seq<Row>>)
      ensures info.None? <==> forall i :: 0 <= i < |trackInfo| ==> !InfoForKey(tracknum, company)(trackInfo[i])
      ensures info.Some? ==> info.value == HistoryOf(trackInfo, tracknum, company) && info.value != []
      ensures info == ExistingInfo(trackInfo, tracknum, company)
    {
      var unorderedInfo := Filter(trackInfo, InfoForKey(tracknum, company));
      if unorderedInfo != [] {
        var data: seq<Row> := [];
        for k := 0 to |unorderedInfo|
          invariant data == Map(unorderedInfo[..k], Unstamp)
        {
          assert unorderedInfo[..k + 1][..k] == unorderedInfo[..k];
          data := data + [Row(unorderedInfo[k].date, unorderedInfo[k].description, unorderedInfo[k].location)];
        }
        assert unorderedInfo[..|unorderedInfo|] == unorderedInfo;
        info := Some(data);
      } else {
        info := None;
      }
    }
  }

  /** The name a subscriber gave to a key (the first such row), as `get_tracknum_name` reads it. */
  function NameFor(t: seq<Subscription>, user: int, tracknum: string, company: string): Option<string>
  {
    match First(t, ForUserKey(user, tracknum, company))
    case None => None
    case Some(s) => Some(s.name)
  }

  /** `NameFor` is the name of the earliest row of the subscriber for the key,
      and there is none exactly when no such row exists. */
  lemma NameForFirstRow(t: seq<Subscription>, user: int, tracknum: string, company: string)
    ensures NameFor(t, user, tracknum, company).None? <==>
              forall i :: 0 <= i < |t| ==> !ForUserKey(user, tracknum, company)(t[i])
    ensures NameFor(t, user, tracknum, company).Some? ==>
              exists i :: 0 <= i < |t| && t[i].name == NameFor(t, user, tracknum, company).value &&
                          ForUserKey(user, tracknum, company)(t[i]) &&
                          forall j :: 0 <= j < i ==> !ForUserKey(user, tracknum, company)(t[j])
  {
  }

  /** The tracking number a user gave `name` to (the first such row), as `check_name_exists` reads it. */
  function TracknumNamed(t: seq<Subscription>, user: int, name: string): Option<string>
  {
    match First(t, ForUserName(user, name))
    case None => None
    case Some(s) => Some(s.tracknum)
  }

  /** Two rows of the table carry the tracking number, whatever their user and company. */
  predicate SharedTracknum(t: seq<Subscription>, tracknum: string)
  {
    exists i, j :: 0 <= i < j < |t| && t[i].tracknum == tracknum && t[j].tracknum == tracknum
  }

  /** The stored events of a key, in stored order. */
  function HistoryOf(info: seq<InfoRow>, tracknum: string, company: string): (h: seq<Row>)
    ensures |h| <= |info|
  {
    Map(Filter(info, InfoForKey(tracknum, company)), Unstamp)
  }

  /** What `get_existing_info` returns: the key's history, or `None` when it is empty. */
  function ExistingInfo(info: seq<InfoRow>, tracknum: string, company: string): Option<seq<Row>>
  {
    var h := HistoryOf(info, tracknum, company);
    if h == [] then None else Some(h)
  }

  /** The subscribers of a key, one per row, in table order. */
  function SubscribersOf(t: seq<Subscription>, tracknum: string, company: string): seq<int>
  {
    Map(Filter(t, ForKey(tracknum, company)), UserOf)
  }

  /** Every subscriber listed for a key has a name for that key. */
  lemma SubscribersAreNamed(t: seq<Subscription>, tracknum: string, company: string, u: int)
    requires u in SubscribersOf(t, tracknum, company)
    ensures NameFor(t, u, tracknum, company).Some?
  {
    NameForFirstRow(t, u, tracknum, company);
    var m := Filter(t, ForKey(tracknum, company));
    var k :| 0 <= k < |m| && m[k].user == u;
    assert m[k] in t;
    var i :| 0 <= i < |t| && t[i] == m[k];
    assert ForUserKey(u, tracknum, company)(t[i]);
  }

  /** Deleting one user's rows keeps every other row, in order. */
  lemma DelUserKeepsOthers(t: seq<Subscription>, user: int, tracknum: string, s: Subscription)
    requires s in t && (s.user != user || s.tracknum != tracknum)
    ensures s in Filter(t, Not(ForUserTracknum(user, tracknum)))
  {
    var i :| 0 <= i < |t| && t[i] == s;
    assert Not(ForUserTracknum(user, tracknum))(t[i]);
  }
}
