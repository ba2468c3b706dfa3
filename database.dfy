/**
 * The tracking collection of the bot's document store, held in memory: a
 * table from document id to tracking row, plus the per-user counters that
 * adding and removing a tracking keeps. Times are integer seconds.
 */
module Database {
  import opened Wrappers

  /** The life-cycle state of one tracking. */
  datatype TrackingStatus = Active | Paused | OutOfStock | InStock | Error {
    /** The string the store keeps for the state. */
    function Value(): string {
      match this
      case Active => "active"
      case Paused => "paused"
      case OutOfStock => "out_of_stock"
      case InStock => "in_stock"
      case Error => "error"
    }
  }

  /** `TrackingStatus(v)`: the state whose stored string is `v`; `None` where the enum lookup raises. */
  function StatusFromValue(v: string): (r: Option<TrackingStatus>)
    ensures forall s: TrackingStatus :: s.Value() == v <==> r == Some(s)
  {
    if v == "active" then Some(Active)
    else if v == "paused" then Some(Paused)
    else if v == "out_of_stock" then Some(OutOfStock)
    else if v == "in_stock" then Some(InStock)
    else if v == "error" then Some(Error)
    else None
  }

  /** One tracking row. `None` stands for Python's `None`; `id` is the document id. */
  datatype ProductTracking = ProductTracking(
    userId: int,
    productUrl: string,
    productName: string,
    storeName: string,
    storeId: string,
    checkInterval: int,
    status: TrackingStatus,
    lastChecked: Option<int>,
    lastStatusChange: Option<int>,
    createdAt: Option<int>,
    updatedAt: Option<int>,
    errorCount: int,
    notificationSent: bool,
    productKey: Option<string>,
    offerId: Option<string>,
    offerName: Option<string>,
    id: Option<nat>)

  /** The stored document of a tracking: the same fields, with the state as its string. */
  datatype TrackingDoc = TrackingDoc(
    userId: int,
    productUrl: string,
    productName: string,
    storeName: string,
    storeId: string,
    checkInterval: int,
    status: string,
    lastChecked: Option<int>,
    lastStatusChange: Option<int>,
    createdAt: Option<int>,
    updatedAt: Option<int>,
    errorCount: int,
    notificationSent: bool,
    productKey: Option<string>,
    offerId: Option<string>,
    offerName: Option<string>,
    id: Option<nat>)

  /** `ProductTracking.to_dict`: every field, with `status` replaced by its stored string. */
  function ToDict(t: ProductTracking): (d: TrackingDoc)
    ensures d.status == t.status.Value()
  {
    TrackingDoc(t.userId, t.productUrl, t.productName, t.storeName, t.storeId, t.checkInterval,
                t.status.Value(), t.lastChecked, t.lastStatusChange, t.createdAt, t.updatedAt,
                t.errorCount, t.notificationSent, t.productKey, t.offerId, t.offerName, t.id)
  }

  /** The row rebuilt from a document, as `get_user_trackings` does; `None` for an unknown state string. */
  function FromDoc(d: TrackingDoc): (r: Option<ProductTracking>)
    ensures r.Some? <==> StatusFromValue(d.status).Some?
    ensures r.Some? ==> ToDict(r.value) == d
  {
    match StatusFromValue(d.status)
    case None => None
    case Some(s) =>
      Some(ProductTracking(d.userId, d.productUrl, d.productName, d.storeName, d.storeId, d.checkInterval,
                           s, d.lastChecked, d.lastStatusChange, d.createdAt, d.updatedAt,
                           d.errorCount, d.notificationSent, d.productKey, d.offerId, d.offerName, d.id))
  }

  /** Storing a row and reading it back gives the row again. */
  lemma {:induction false} DocRoundTrip(t: ProductTracking)
    ensures FromDoc(ToDict(t)) == Some(t)
  {
    assert StatusFromValue(t.status.Value()) == Some(t.status);
  }

  /** The per-user counters and setting that the tracking operations read or change. */
  datatype UserRecord = UserRecord(
    totalTrackings: int,
    activeTrackings: int,
    defaultCheckInterval: Option<int>,
    updatedAt: Option<int>)

  /** The user document after `$inc` of both counters and `$set` of `updated_at`, with upsert. */
  function CountNewTracking(users: map<int, UserRecord>, userId: int, now: int): (r: map<int, UserRecord>)
    ensures r.Keys == users.Keys + {userId}
    ensures forall u :: u in users && u != userId ==> r[u] == users[u]
    ensures userId in users ==>
              r[userId].totalTrackings == users[userId].totalTrackings + 1 &&
              r[userId].activeTrackings == users[userId].activeTrackings + 1 &&
              r[userId].defaultCheckInterval == users[userId].defaultCheckInterval
    ensures userId !in users ==>
              r[userId].totalTrackings == 1 && r[userId].activeTrackings == 1 &&
              r[userId].defaultCheckInterval.None?
    ensures r[userId].updatedAt == Some(now)
  {
    if userId in users then
      var u := users[userId];
      users[userId := u.(totalTrackings := u.totalTrackings + 1, activeTrackings := u.activeTrackings + 1, updatedAt := Some(now))]
    else
      users[userId := UserRecord(1, 1, None, Some(now))]
  }

  /** The row `add_tracking` writes for a new pair: ACTIVE, created and updated now. */
  function NewRow(t: ProductTracking, now: int, id: nat): ProductTracking {
    t.(status := Active, createdAt := Some(now), updatedAt := Some(now), id := Some(id))
  }

  /** The row after the `$set` of `update_tracking_status`. */
  function StatusUpdated(t: ProductTracking, s: TrackingStatus, errorCount: int, notificationSent: bool, now: int): (r: ProductTracking)
    ensures r.lastStatusChange == (if t.status != s then Some(now) else t.lastStatusChange)
  {
    t.(status := s, lastChecked := Some(now), updatedAt := Some(now), errorCount := errorCount,
       notificationSent := notificationSent,
       lastStatusChange := if t.status != s then Some(now) else t.lastStatusChange)
  }

  /** Whether two rows belong to the same (user, URL) pair. */
  predicate SamePair(a: ProductTracking, b: ProductTracking) {
    a.userId == b.userId && a.productUrl == b.productUrl
  }

  /** Each row carries its own id, ids are below `nextId`, and no (user, URL) pair is held twice. */
  ghost predicate WellFormed(rows: map<nat, ProductTracking>, nextId: nat) {
    (forall k :: k in rows ==> rows[k].id == Some(k) && k < nextId) &&
    (forall j, k :: j in rows && k in rows && SamePair(rows[j], rows[k]) ==> j == k)
  }

  /** Rewriting rows in place while keeping each row's id, user and URL keeps a table well-formed. */
  lemma SameShapeWellFormed(rows: map<nat, ProductTracking>, rows': map<nat, ProductTracking>, nextId: nat)
    requires WellFormed(rows, nextId) && rows'.Keys == rows.Keys
    requires forall k :: k in rows ==> rows'[k].id == rows[k].id && SamePair(rows'[k], rows[k])
    ensures WellFormed(rows', nextId)
  {
    forall j, k | j in rows' && k in rows' && SamePair(rows'[j], rows'[k]) ensures j == k {
      assert SamePair(rows[j], rows[k]);
    }
  }

  /** Updating the status fields of one row keeps a table well-formed. */
  lemma StatusUpdatedWellFormed(rows: map<nat, ProductTracking>, nextId: nat, id: nat,
                                s: TrackingStatus, errorCount: int, notificationSent: bool, now: int)
    requires WellFormed(rows, nextId)
    ensures WellFormed(if id in rows then rows[id := StatusUpdated(rows[id], s, errorCount, notificationSent, now)] else rows, nextId)
  {
    if id in rows {
      SameShapeWellFormed(rows, rows[id := StatusUpdated(rows[id], s, errorCount, notificationSent, now)], nextId);
    }
  }

  /** Rows created later come first; a row without `created_at` sorts after every dated row. */
  predicate NotOlder(a: ProductTracking, b: ProductTracking) {
    match (a.createdAt, b.createdAt)
    case (None, None) => true
    case (None, Some(_)) => false
    case (Some(_), None) => true
    case (Some(x), Some(y)) => x >= y
  }

  /** Newest `created_at` first: Mongo's `.sort('created_at', -1)`. */
  predicate NewestFirst(s: seq<ProductTracking>) {
    forall i, j :: 0 <= i < j < |s| ==> NotOlder(s[i], s[j])
  }

  /** No two rows of the list share a document id. */
  predicate DistinctIds(s: seq<ProductTracking>) {
    forall i, j :: 0 <= i < j < |s| ==> s[i].id != s[j].id
  }

  /** Where `t` goes in a newest-first list: in front of the first row it is not older than. */
  function InsertPos(s: seq<ProductTracking>, t: ProductTracking): (p: nat)
    ensures p <= |s|
    ensures forall i :: 0 <= i < p ==> !NotOlder(t, s[i])
    ensures p < |s| ==> NotOlder(t, s[p])
  {
    if |s| == 0 || NotOlder(t, s[0]) then 0 else InsertPos(s[1..], t) + 1
  }

  /** `t` placed in front of the first row it is not older than. */
  function InsertNewestFirst(s: seq<ProductTracking>, t: ProductTracking): seq<ProductTracking> {
    s[..InsertPos(s, t)] + [t] + s[InsertPos(s, t)..]
  }

  /** `NotOlder` orders any two rows one way or the other. */
  lemma NotOlderTotal(a: ProductTracking, b: ProductTracking)
    ensures NotOlder(a, b) || NotOlder(b, a)
  {
  }

  lemma NotOlderTransitive(a: ProductTracking, b: ProductTracking, c: ProductTracking)
    requires NotOlder(a, b) && NotOlder(b, c)
    ensures NotOlder(a, c)
  {
  }

  /** Inserting into a newest-first list keeps it newest first. */
  lemma InsertKeepsOrder(s: seq<ProductTracking>, t: ProductTracking)
    requires NewestFirst(s)
    ensures NewestFirst(InsertNewestFirst(s, t))
  {
    var p := InsertPos(s, t);
    var r := InsertNewestFirst(s, t);
    assert |r| == |s| + 1;
    assert forall i :: 0 <= i < |r| ==> r[i] == (if i < p then s[i] else if i == p then t else s[i - 1]);
    forall i, j | 0 <= i < j < |r| ensures NotOlder(r[i], r[j]) {
      if i < p {
        NotOlderTotal(t, s[i]);
        if j == p {
        } else if j < p {
        } else {
          NotOlderTransitive(s[i], t, s[j - 1]);
        }
      } else if i == p {
        if p < |s| {
          NotOlderTransitive(t, s[p], s[j - 1]);
        }
      }
    }
  }

  /** The `find` filter of `get_user_trackings`: the owner, and the state when one is given. */
  predicate Wanted(t: ProductTracking, userId: int, status: Option<TrackingStatus>) {
    t.userId == userId && (status.None? || t.status == status.value)
  }

  /** The rows of the list after inserting `t` at position `p`, by index. */
  lemma InsertedAt(s: seq<ProductTracking>, t: ProductTracking)
    ensures |InsertNewestFirst(s, t)| == |s| + 1
    ensures forall i :: 0 <= i < |s| + 1 ==>
              InsertNewestFirst(s, t)[i]
              == if i < InsertPos(s, t) then s[i] else if i == InsertPos(s, t) then t else s[i - 1]
  {
  }

  /** Inserting a row whose id is new keeps the ids distinct and adds exactly that row. */
  lemma InsertedOnce(s: seq<ProductTracking>, t: ProductTracking)
    requires DistinctIds(s) && forall i :: 0 <= i < |s| ==> s[i].id != t.id
    ensures DistinctIds(InsertNewestFirst(s, t))
    ensures forall x :: x in InsertNewestFirst(s, t) <==> x in s || x == t
  {
    var p := InsertPos(s, t);
    var r := InsertNewestFirst(s, t);
    InsertedAt(s, t);
    forall x | x in s ensures x in r {
      var i :| 0 <= i < |s| && s[i] == x;
      assert r[if i < p then i else i + 1] == x;
    }
  }

  /** The row as `get_trackings_to_check` rebuilds it: without `product_key`. */
  function DueSnapshot(t: ProductTracking): ProductTracking {
    t.(productKey := None)
  }

  /**
   * Whether a row is due under the intended selection: ACTIVE, and never
   * checked or last checked strictly before the cutoff.
   */
  predicate IsDue(t: ProductTracking, cutoff: int) {
    t.status == Active && (t.lastChecked.None? || t.lastChecked.value < cutoff)
  }

  /**
   * The selection as the query is written: `{'$lt': cutoff}` or
   * `{'$exists': False}`. A row stored by `add_tracking` always holds the
   * field, as null when never checked, and null satisfies neither branch.
   */
  predicate IsDueAsWritten(t: ProductTracking, cutoff: int) {
    t.status == Active && t.lastChecked.Some? && t.lastChecked.value < cutoff
  }

  /** The most rows one selection returns (`.limit(100)`). */
  const SelectionLimit: nat := 100

  class TrackingTable {
    /** The tracking collection, keyed by document id. */
    var rows: map<nat, ProductTracking>
    /** The user collection's counters, keyed by user id. */
    var users: map<int, UserRecord>
    /** The next document id the store hands out. */
    var nextId: nat

    /** The stored rows and the id counter form a well-formed table. */
    ghost predicate Valid()
      reads this
    {
      WellFormed(rows, nextId)
    }

    constructor()
      ensures Valid() && rows == map[] && users == map[]
    {
      rows := map[];
      users := map[];
      nextId := 0;
    }

    /** The ids of the rows due at `cutoff`. */
    ghost function DueIds(cutoff: int): set<nat>
      reads this
    {
      set k | k in rows && IsDue(rows[k], cutoff)
    }

    /**
     * `add_tracking`: the upsert keyed by (user, URL). An existing row is
     * returned untouched; a new one is inserted ACTIVE with both stamps at
     * `now`. The user's counters go up when the returned row's `created_at`
     * equals `now`.
     */
    method AddTracking(t: ProductTracking, now: int) returns (id: nat)
      requires Valid()
      modifies this
      ensures Valid()
      ensures id in rows && SamePair(rows[id], t)
      ensures (exists k :: k in old(rows) && SamePair(old(rows)[k], t)) ==>
                id in old(rows) && rows == old(rows)
                && users == (if old(rows)[id].createdAt == Some(now) then CountNewTracking(old(users), t.userId, now) else old(users))
      ensures (forall k :: k in old(rows) ==> !SamePair(old(rows)[k], t)) ==>
                id == old(nextId) && rows == old(rows)[id := NewRow(t, now, id)]
                && users == CountNewTracking(old(users), t.userId, now)
    {
      if k :| k in rows && SamePair(rows[k], t) {
        id := k;
        if rows[k].createdAt == Some(now) {
          users := CountNewTracking(users, t.userId, now);
        }
      } else {
        id := nextId;
        rows := rows[id := NewRow(t, now, id)];
        nextId := nextId + 1;
        users := CountNewTracking(users, t.userId, now);
      }
    }

    /**
     * `get_user_trackings`: the user's rows, restricted to one state when
     * one is given, newest first, each once.
     */
    method GetUserTrackings(userId: int, status: Option<TrackingStatus>) returns (r: seq<ProductTracking>)
      requires Valid()
      ensures forall t :: t in r <==> t in rows.Values && Wanted(t, userId, status)
      ensures DistinctIds(r)
      ensures NewestFirst(r)
    {
      var keys := rows.Keys;
      r := [];
      while keys != {}
        invariant keys <= rows.Keys
        invariant forall t :: t in r <==> exists k :: k in rows && k !in keys && rows[k] == t && Wanted(t, userId, status)
        invariant DistinctIds(r)
        invariant NewestFirst(r)
        decreases keys
      {
        var k :| k in keys;
        var t := rows[k];
        if Wanted(t, userId, status) {
          forall i | 0 <= i < |r| ensures r[i].id != t.id {
            assert r[i] in r;
          }
          InsertedOnce(r, t);
          InsertKeepsOrder(r, t);
          r := InsertNewestFirst(r, t);
        }
        keys := keys - {k};
      }
      assert forall t :: t in rows.Values <==> exists k :: k in rows && rows[k] == t;
    }

    /**
     * `get_trackings_to_check(max_age_minutes)`: up to 100 due rows, in no
     * particular order, each once, as the store returns them without their
     * product key.
     */
    method GetTrackingsToCheck(now: int, maxAgeMinutes: int) returns (r: seq<ProductTracking>)
      requires Valid()
      ensures |r| == if |DueIds(now - maxAgeMinutes * 60)| < SelectionLimit then |DueIds(now - maxAgeMinutes * 60)| else SelectionLimit
      ensures forall i :: 0 <= i < |r| ==>
                r[i].id.Some? && r[i].id.value in DueIds(now - maxAgeMinutes * 60) &&
                r[i] == DueSnapshot(rows[r[i].id.value])
      ensures DistinctIds(r)
    {
      var cutoff := now - maxAgeMinutes * 60;
      ghost var due := DueIds(cutoff);
      var keys := rows.Keys;
      ghost var picked: set<nat> := {};
      r := [];
      while |r| < SelectionLimit && keys != {}
        invariant keys <= rows.Keys
        invariant picked <= due && picked !! keys
        invariant forall k :: k in due ==> k in picked || k in keys
        invariant |picked| == |r| <= SelectionLimit
        invariant forall i :: 0 <= i < |r| ==>
                    r[i].id.Some? && r[i].id.value in picked && r[i] == DueSnapshot(rows[r[i].id.value])
        invariant DistinctIds(r)
        decreases keys
      {
        var k :| k in keys;
        keys := keys - {k};
        if IsDue(rows[k], cutoff) {
          assert forall i :: 0 <= i < |r| ==> r[i].id != Some(k);
          AppendDistinct(r, DueSnapshot(rows[k]));
          r := r + [DueSnapshot(rows[k])];
          picked := picked + {k};
        }
      }
      if |r| < SelectionLimit {
        assert picked == due;
      } else {
        SubsetCard(picked, due);
      }
    }

    /**
     * `update_tracking_status`: sets the state, both check stamps, the error
     * count and the notification flag of one row, and stamps
     * `last_status_change` when the state differs. A missing id changes
     * nothing.
     */
    method UpdateTrackingStatus(id: nat, s: TrackingStatus, errorCount: int, notificationSent: bool, now: int)
      modifies this
      ensures rows == if id in old(rows) then old(rows)[id := StatusUpdated(old(rows)[id], s, errorCount, notificationSent, now)] else old(rows)
      ensures users == old(users) && nextId == old(nextId)
    {
      if id in rows {
        rows := rows[id := StatusUpdated(rows[id], s, errorCount, notificationSent, now)];
      }
    }

    /**
     * `remove_tracking`: deletes the row only when both the id and the owner
     * match, and then takes one off the owner's active count.
     */
    method RemoveTracking(userId: int, id: nat, now: int) returns (deleted: bool)
      requires Valid()
      modifies this
      ensures Valid()
      ensures deleted <==> id in old(rows) && old(rows)[id].userId == userId
      ensures rows == if deleted then old(rows) - {id} else old(rows)
      ensures users == if deleted && userId in old(users)
                       then old(users)[userId := old(users)[userId].(activeTrackings := old(users)[userId].activeTrackings - 1, updatedAt := Some(now))]
                       else old(users)
      ensures nextId == old(nextId)
    {
      deleted := id in rows && rows[id].userId == userId;
      if deleted {
        rows := rows - {id};
        if userId in users {
          var u := users[userId];
          users := users[userId := u.(activeTrackings := u.activeTrackings - 1, updatedAt := Some(now))];
        }
      }
    }

    /**
     * The revive `update_one` of the add-tracking path: back to ACTIVE with no
     * errors and no notification sent, renamed, `updated_at` stamped.
     */
    method ReviveTracking(id: nat, productName: string, now: int)
      requires Valid()
      modifies this
      ensures Valid()
      ensures rows == if id in old(rows)
                      then old(rows)[id := old(rows)[id].(status := Active, errorCount := 0, updatedAt := Some(now),
                                                           productName := productName, notificationSent := false)]
                      else old(rows)
      ensures users == old(users) && nextId == old(nextId)
    {
      if id in rows {
        rows := rows[id := rows[id].(status := Active, errorCount := 0, updatedAt := Some(now),
                                     productName := productName, notificationSent := false)];
      }
    }

    /** The user's `$set` of `default_check_interval` with upsert. */
    method SetDefaultInterval(userId: int, minutes: int, now: int)
      requires Valid()
      modifies this
      ensures Valid()
      ensures users == old(users)[userId := if userId in old(users)
                                            then old(users)[userId].(defaultCheckInterval := Some(minutes), updatedAt := Some(now))
                                            else UserRecord(0, 0, Some(minutes), Some(now))]
      ensures rows == old(rows) && nextId == old(nextId)
    {
      var u := if userId in users then users[userId].(defaultCheckInterval := Some(minutes), updatedAt := Some(now))
               else UserRecord(0, 0, Some(minutes), Some(now));
      users := users[userId := u];
    }
  }

  /** Appending a row whose id is new keeps the ids distinct. */
  lemma AppendDistinct(s: seq<ProductTracking>, t: ProductTracking)
    requires DistinctIds(s) && forall i :: 0 <= i < |s| ==> s[i].id != t.id
    ensures DistinctIds(s + [t])
  {
    var r := s + [t];
    forall i, j | 0 <= i < j < |r| ensures r[i].id != r[j].id {
      assert r[i] == s[i];
    }
  }

  /** A subset has no more elements than its superset. */
  lemma SubsetCard<T>(a: set<T>, b: set<T>)
    requires a <= b
    ensures |a| <= |b|
  {
    assert b == a + (b - a);
  }

  /** A row `add_tracking` has just written is due under the intended selection at any cutoff. */
  lemma {:induction false} NewRowIsDue(t: ProductTracking, now: int, id: nat, cutoff: int)
    requires t.lastChecked.None?
    ensures IsDue(NewRow(t, now, id), cutoff)
  {
  }

  /** As written, the selection never returns a row that has not been checked yet. */
  lemma {:induction false} NewRowNeverDueAsWritten(t: ProductTracking, now: int, id: nat, cutoff: int)
    requires t.lastChecked.None?
    ensures !IsDueAsWritten(NewRow(t, now, id), cutoff)
  {
  }
}
