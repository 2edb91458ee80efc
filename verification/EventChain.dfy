/**
 The hash-chained audit log of `audit/scoring_events.py`: `append`, `replay`,
 `current_score` and `ChainHashVerifier.verify`.

 The table is the sequence of inserted rows.  SHA-256 over canonical JSON is an
 arbitrary function of the hashed fields; the results that need it assume it is
 injective and never yields the empty string or the GENESIS sentinel.
 */
module EventChain {
  import opened Wrappers

  // ---------------------------------------------------------------- data

  /** An ISO timestamp: its instant, and whether its text carries a UTC offset. */
  datatype Time = Time(instant: int, zoned: bool)

  /** A feature snapshot is a Python dict: pairs in insertion order, keys distinct. */
  type Snapshot = seq<(string, string)>

  datatype ScoringEvent = ScoringEvent(
    eventId: string, wallet: string, namespaceId: string, score: int, previousScore: Option<int>,
    features: Snapshot, modelVersion: string, triggeredBy: string, actorId: Option<string>,
    chainHash: string, occurredAt: Time)

  datatype Row = Row(
    eventId: string, wallet: string, namespaceId: string, score: int, previousScore: Option<int>,
    features: map<string, string>, modelVersion: string, triggeredBy: string, actorId: Option<string>,
    chainHash: string, occurredAt: Time)

  /** What the chain hash covers. */
  datatype Payload = Payload(
    prev: string, eventId: string, wallet: string, score: int, features: map<string, string>, occurredAt: Time)

  datatype AppendError = InvalidTrigger | MissingActor | IntegrityError

  datatype Verdict = NoEvents | Valid(total: nat) | Tampered(total: nat, firstEventId: string)

  const VALID_TRIGGERED_BY: set<string> := {"ingestion", "manual_recompute", "feedback_boost", "admin_override"}
  const GENESIS: string := "GENESIS"
  const REPLAY_LIMIT: nat := 1000

  type Hash = Payload -> string

  ghost predicate GoodHash(hash: Hash) {
    && (forall p, q :: hash(p) == hash(q) ==> p == q)
    && (forall p :: hash(p) != "" && hash(p) != GENESIS)
  }

  // ---------------------------------------------------------------- hashing

  function DictOf(s: Snapshot): map<string, string> {
    if s == [] then map[] else DictOf(s[..|s| - 1])[s[|s| - 1].0 := s[|s| - 1].1]
  }

  /** The predecessor's hash as it enters the payload: missing or empty means GENESIS. */
  function PrevOf(prev: Option<string>): string {
    if prev.Some? && prev.value != "" then prev.value else GENESIS
  }

  function RowPayload(prev: Option<string>, r: Row): Payload {
    Payload(PrevOf(prev), r.eventId, r.wallet, r.score, r.features, r.occurredAt)
  }

  /** Reading a row back assumes UTC when the stored text has no offset. */
  function FromRow(r: Row): Row { r.(occurredAt := r.occurredAt.(zoned := true)) }

  // ---------------------------------------------------------------- queries

  /** SELECT ... WHERE wallet = ? ORDER BY occurred_at DESC LIMIT 1 (ties: newest row). */
  function Latest(rows: seq<Row>, wallet: string): Option<Row> {
    if rows == [] then None
    else
      var r := rows[|rows| - 1];
      var before := Latest(rows[..|rows| - 1], wallet);
      if r.wallet == wallet && (before.None? || before.value.occurredAt.instant <= r.occurredAt.instant) then Some(r)
      else before
  }

  function InsertByTime(s: seq<Row>, r: Row): seq<Row> {
    if s == [] || s[|s| - 1].occurredAt.instant <= r.occurredAt.instant then s + [r]
    else InsertByTime(s[..|s| - 1], r) + [s[|s| - 1]]
  }

  /** SELECT ... WHERE wallet = ? ORDER BY occurred_at ASC (ties: oldest row first). */
  function History(rows: seq<Row>, wallet: string): seq<Row> {
    if rows == [] then []
    else
      var r := rows[|rows| - 1];
      var h := History(rows[..|rows| - 1], wallet);
      if r.wallet == wallet then InsertByTime(h, r) else h
  }

  function Since(s: seq<Row>, since: Option<int>): seq<Row> {
    if s == [] then []
    else
      var rest := Since(s[1..], since);
      if since.Some? && s[0].occurredAt.instant < since.value then rest else [s[0]] + rest
  }

  function Take(s: seq<Row>, limit: nat): seq<Row> { if |s| <= limit then s else s[..limit] }

  // ---------------------------------------------------------------- append

  function Truncated(s: Snapshot, maxKeys: nat): Snapshot { if |s| > maxKeys then s[..maxKeys] else s }

  /** The row `append` builds for an event, chained to the wallet's latest row. */
  function ChainedRow(hash: Hash, maxKeys: nat, rows: seq<Row>, e: ScoringEvent): Row {
    var prev := Latest(rows, e.wallet);
    var r := Row(e.eventId, e.wallet, e.namespaceId, e.score, e.previousScore,
                 DictOf(Truncated(e.features, maxKeys)), e.modelVersion, e.triggeredBy, e.actorId, "", e.occurredAt);
    r.(chainHash := hash(RowPayload(if prev.Some? then Some(prev.value.chainHash) else None, r)))
  }

  /** A dict: no key twice. */
  predicate DistinctKeys(s: Snapshot) { forall i, j :: 0 <= i < j < |s| ==> s[i].0 != s[j].0 }

  /** `m` holds the first `limit` entries of `s`, and nothing else. */
  ghost predicate FirstEntries(s: Snapshot, limit: nat, m: map<string, string>) {
    && (forall i :: 0 <= i < |s| && i < limit ==> s[i].0 in m && m[s[i].0] == s[i].1)
    && (forall k :: k in m ==> exists i :: 0 <= i < |s| && i < limit && s[i].0 == k)
  }

  /** The row is the event's own, with its oversized snapshot cut. */
  ghost predicate Records(maxKeys: nat, e: ScoringEvent, r: Row) {
    && r.eventId == e.eventId && r.wallet == e.wallet && r.namespaceId == e.namespaceId
    && r.score == e.score && r.previousScore == e.previousScore
    && r.modelVersion == e.modelVersion && r.triggeredBy == e.triggeredBy && r.actorId == e.actorId
    && r.occurredAt == e.occurredAt
    && (DistinctKeys(e.features) ==> FirstEntries(e.features, maxKeys, r.features))
  }

  lemma {:induction false} DictHoldsEntries(s: Snapshot)
    requires DistinctKeys(s)
    ensures FirstEntries(s, |s|, DictOf(s))
  {
    if s != [] {
      var front := s[..|s| - 1];
      DictHoldsEntries(front);
      forall k | k in DictOf(s) ensures exists i :: 0 <= i < |s| && s[i].0 == k {
        if k != s[|s| - 1].0 {
          var i :| 0 <= i < |front| && front[i].0 == k;
          assert s[i].0 == k;
        }
      }
      forall i | 0 <= i < |s| ensures s[i].0 in DictOf(s) && DictOf(s)[s[i].0] == s[i].1 {
        if i < |front| {
          assert front[i] == s[i];
        }
      }
    }
  }

  lemma RowRecordsEvent(hash: Hash, maxKeys: nat, rows: seq<Row>, e: ScoringEvent)
    ensures Records(maxKeys, e, ChainedRow(hash, maxKeys, rows, e))
  {
    if DistinctKeys(e.features) {
      var s := Truncated(e.features, maxKeys);
      DictHoldsEntries(s);
      forall i | 0 <= i < |e.features| && i < maxKeys
        ensures e.features[i].0 in DictOf(s) && DictOf(s)[e.features[i].0] == e.features[i].1
      {
        assert s[i] == e.features[i];
      }
      forall k | k in DictOf(s) ensures exists i :: 0 <= i < |e.features| && i < maxKeys && e.features[i].0 == k {
        var i :| 0 <= i < |s| && s[i].0 == k;
        assert e.features[i] == s[i];
      }
    }
  }

  /** PRIMARY KEY, UNIQUE and CHECK constraints of the table. */
  predicate Insertable(rows: seq<Row>, r: Row) {
    && 0 <= r.score <= 100
    && forall i :: 0 <= i < |rows| ==> rows[i].eventId != r.eventId && rows[i].chainHash != r.chainHash
  }

  function Refusal(e: ScoringEvent): Option<AppendError> {
    if e.triggeredBy !in VALID_TRIGGERED_BY then Some(InvalidTrigger)
    else if e.triggeredBy == "admin_override" && (e.actorId.None? || e.actorId.value == "") then Some(MissingActor)
    else None
  }

  /** The table after an `append`; a refused append leaves it as it was. */
  function Appended(hash: Hash, maxKeys: nat, rows: seq<Row>, e: ScoringEvent): seq<Row> {
    var r := ChainedRow(hash, maxKeys, rows, e);
    if Refusal(e).None? && Insertable(rows, r) then rows + [r] else rows
  }

  /** The table after a run of appends, whatever wallets they interleave. */
  function AppendAll(hash: Hash, maxKeys: nat, events: seq<ScoringEvent>): seq<Row> {
    if events == [] then []
    else Appended(hash, maxKeys, AppendAll(hash, maxKeys, events[..|events| - 1]), events[|events| - 1])
  }

  // ---------------------------------------------------------------- verification

  function PrevHash(s: seq<Row>, i: nat): Option<string>
    requires i < |s|
  {
    if i == 0 then None else Some(s[i - 1].chainHash)
  }

  /** Event i's stored hash is the hash of its fields and its predecessor's stored hash. */
  predicate Linked(hash: Hash, s: seq<Row>, i: nat)
    requires i < |s|
  {
    s[i].chainHash == hash(RowPayload(PrevHash(s, i), FromRow(s[i])))
  }

  predicate AllLinked(hash: Hash, s: seq<Row>) { forall i :: 0 <= i < |s| ==> Linked(hash, s, i) }

  /** The verdict on a replayed history. */
  ghost predicate VerdictFor(hash: Hash, s: seq<Row>, v: Verdict) {
    match v
    case NoEvents => s == []
    case Valid(n) => s != [] && n == |s| && AllLinked(hash, s)
    case Tampered(n, id) =>
      && n == |s|
      && exists i :: FirstBreak(hash, s, i) && s[i].eventId == id
  }

  ghost predicate FirstBreak(hash: Hash, s: seq<Row>, i: int) {
    && 0 <= i < |s| && !Linked(hash, s, i)
    && forall j :: 0 <= j < i ==> Linked(hash, s, j)
  }

  class ScoringEventStore {
    var rows: seq<Row>
    const hash: Hash
    const maxFeatureKeys: nat

    constructor (hash: Hash, maxFeatureKeys: nat)
      ensures rows == [] && this.hash == hash && this.maxFeatureKeys == maxFeatureKeys
    {
      this.hash := hash;
      this.maxFeatureKeys := maxFeatureKeys;
      rows := [];
    }

    /** The event comes back truncated and with its chain hash, as the source mutates it. */
    method Append(event: ScoringEvent) returns (stored: Result<ScoringEvent, AppendError>)
      modifies this
      ensures rows == Appended(hash, maxFeatureKeys, old(rows), event)
      ensures stored.Ok? <==> |rows| == |old(rows)| + 1
      ensures stored.Ok? ==>
        stored.value == event.(features := Truncated(event.features, maxFeatureKeys), chainHash := rows[|rows| - 1].chainHash)
      ensures stored.Ok? ==> rows[..|old(rows)|] == old(rows) && Records(maxFeatureKeys, event, rows[|rows| - 1])
      ensures stored.Err? ==> rows == old(rows)
      ensures stored.Err? ==> stored.error == if Refusal(event).Some? then Refusal(event).value else IntegrityError
    {
      if event.triggeredBy !in VALID_TRIGGERED_BY {
        return Err(InvalidTrigger);
      }
      if event.triggeredBy == "admin_override" && (event.actorId.None? || event.actorId.value == "") {
        return Err(MissingActor);
      }
      var e := event;
      if |e.features| > maxFeatureKeys {
        e := e.(features := e.features[..maxFeatureKeys]);
      }
      var prev := Latest(rows, e.wallet);
      var prevHash := if prev.Some? then Some(prev.value.chainHash) else None;
      e := e.(chainHash := hash(Payload(PrevOf(prevHash), e.eventId, e.wallet, e.score, DictOf(e.features), e.occurredAt)));
      var r := Row(e.eventId, e.wallet, e.namespaceId, e.score, e.previousScore, DictOf(e.features),
                   e.modelVersion, e.triggeredBy, e.actorId, e.chainHash, e.occurredAt);
      if !Insertable(rows, r) {
        return Err(IntegrityError);
      }
      RowRecordsEvent(hash, maxFeatureKeys, rows, event);
      rows := rows + [r];
      return Ok(e);
    }

    function Replay(wallet: string, since: Option<int>, limit: nat): seq<Row>
      reads this
    {
      Take(Since(History(rows, wallet), since), limit)
    }

    function CurrentScore(wallet: string): Option<int>
      reads this
    {
      var latest := Latest(rows, wallet);
      if latest.Some? then Some(latest.value.score) else None
    }

    /** ChainHashVerifier.verify. */
    method Verify(wallet: string) returns (v: Verdict)
      ensures VerdictFor(hash, Take(History(rows, wallet), REPLAY_LIMIT), v)
    {
      var events := Replay(wallet, None, REPLAY_LIMIT);
      SinceNone(History(rows, wallet));
      if events == [] {
        return NoEvents;
      }
      var prevHash: Option<string> := None;
      for i := 0 to |events|
        invariant prevHash == if i == 0 then None else Some(events[i - 1].chainHash)
        invariant forall j :: 0 <= j < i ==> Linked(hash, events, j)
      {
        var event := FromRow(events[i]);
        var expected := hash(Payload(PrevOf(prevHash), event.eventId, event.wallet, event.score,
                                     event.features, event.occurredAt));
        if expected != event.chainHash {
          assert FirstBreak(hash, events, i);
          return Tampered(|events|, event.eventId);
        }
        prevHash := Some(event.chainHash);
      }
      return Valid(|events|);
    }
  }

  lemma {:induction false} SinceNone(s: seq<Row>)
    ensures Since(s, None) == s
  {
    if s != [] {
      SinceNone(s[1..]);
    }
  }

  /** A history has one verdict only. */
  lemma VerdictUnique(hash: Hash, s: seq<Row>, v: Verdict, w: Verdict)
    requires VerdictFor(hash, s, v) && VerdictFor(hash, s, w)
    ensures v == w
  {
  }

  // ---------------------------------------------------------------- the two queries agree

  predicate SortedByTime(s: seq<Row>) {
    forall i, j :: 0 <= i < j < |s| ==> s[i].occurredAt.instant <= s[j].occurredAt.instant
  }

  predicate AtOrBefore(s: seq<Row>, instant: int) {
    forall k :: 0 <= k < |s| ==> s[k].occurredAt.instant <= instant
  }

  lemma {:induction false} InsertKeepsBound(s: seq<Row>, r: Row, instant: int)
    requires AtOrBefore(s, instant) && r.occurredAt.instant <= instant
    ensures AtOrBefore(InsertByTime(s, r), instant)
  {
    if s != [] && s[|s| - 1].occurredAt.instant > r.occurredAt.instant {
      InsertKeepsBound(s[..|s| - 1], r, instant);
    }
  }

  lemma {:induction false} InsertSorts(s: seq<Row>, r: Row)
    requires SortedByTime(s)
    ensures SortedByTime(InsertByTime(s, r))
  {
    if s != [] && s[|s| - 1].occurredAt.instant > r.occurredAt.instant {
      InsertSorts(s[..|s| - 1], r);
      InsertKeepsBound(s[..|s| - 1], r, s[|s| - 1].occurredAt.instant);
    }
  }

  lemma {:induction false} InsertAdds(s: seq<Row>, r: Row)
    ensures multiset(InsertByTime(s, r)) == multiset(s) + multiset{r}
  {
    if s != [] && s[|s| - 1].occurredAt.instant > r.occurredAt.instant {
      assert s == s[..|s| - 1] + [s[|s| - 1]];
      InsertAdds(s[..|s| - 1], r);
    }
  }

  /** Rows of one wallet, in insertion order. */
  function OfWallet(rows: seq<Row>, wallet: string): seq<Row> {
    if rows == [] then []
    else OfWallet(rows[..|rows| - 1], wallet) + (if rows[|rows| - 1].wallet == wallet then [rows[|rows| - 1]] else [])
  }

  /** A history is its wallet's rows, all of them, sorted by time. */
  lemma {:induction false} HistoryIsSortedWallet(rows: seq<Row>, wallet: string)
    ensures SortedByTime(History(rows, wallet))
    ensures multiset(History(rows, wallet)) == multiset(OfWallet(rows, wallet))
  {
    if rows != [] {
      var front := rows[..|rows| - 1];
      HistoryIsSortedWallet(front, wallet);
      if rows[|rows| - 1].wallet == wallet {
        InsertSorts(History(front, wallet), rows[|rows| - 1]);
        InsertAdds(History(front, wallet), rows[|rows| - 1]);
      }
    }
  }

  /** The descending query returns the last row of the ascending one. */
  lemma {:induction false} LatestIsLast(rows: seq<Row>, wallet: string)
    ensures var h := History(rows, wallet);
            Latest(rows, wallet) == if h == [] then None else Some(h[|h| - 1])
  {
    if rows != [] {
      LatestIsLast(rows[..|rows| - 1], wallet);
    }
  }

  lemma {:induction false} WalletRowsAreRows(rows: seq<Row>, wallet: string)
    ensures forall r :: r in OfWallet(rows, wallet) <==> r in rows && r.wallet == wallet
  {
    if rows != [] {
      WalletRowsAreRows(rows[..|rows| - 1], wallet);
      assert rows == rows[..|rows| - 1] + [rows[|rows| - 1]];
    }
  }

  lemma HistoryMembers(rows: seq<Row>, wallet: string, r: Row)
    ensures r in History(rows, wallet) <==> r in rows && r.wallet == wallet
  {
    HistoryIsSortedWallet(rows, wallet);
    WalletRowsAreRows(rows, wallet);
    assert r in History(rows, wallet) <==> r in multiset(History(rows, wallet));
    assert r in OfWallet(rows, wallet) <==> r in multiset(OfWallet(rows, wallet));
  }

  /** Within the cap, `current_score` is the score of the last replayed event. */
  lemma CurrentScoreIsLastReplayed(store: ScoringEventStore, wallet: string)
    requires |History(store.rows, wallet)| <= REPLAY_LIMIT
    ensures var replayed := store.Replay(wallet, None, REPLAY_LIMIT);
      store.CurrentScore(wallet) == if replayed == [] then None else Some(replayed[|replayed| - 1].score)
  {
    LatestIsLast(store.rows, wallet);
    SinceNone(History(store.rows, wallet));
  }

  /** Appending for one wallet changes nothing another wallet's queries return. */
  lemma WalletsAreIndependent(hash: Hash, maxKeys: nat, rows: seq<Row>, e: ScoringEvent, wallet: string)
    requires e.wallet != wallet
    ensures History(Appended(hash, maxKeys, rows, e), wallet) == History(rows, wallet)
    ensures Latest(Appended(hash, maxKeys, rows, e), wallet) == Latest(rows, wallet)
  {
  }

  // ---------------------------------------------------------------- what appends produce

  /** Row m was chained to the row that was its wallet's latest when it was inserted. */
  ghost predicate ChainedAt(hash: Hash, rows: seq<Row>, m: nat)
    requires m < |rows|
  {
    var prev := Latest(rows[..m], rows[m].wallet);
    rows[m].chainHash == hash(RowPayload(if prev.Some? then Some(prev.value.chainHash) else None, rows[m]))
  }

  ghost predicate UniqueHashes(rows: seq<Row>) {
    forall i, j :: 0 <= i < j < |rows| ==> rows[i].chainHash != rows[j].chainHash
  }

  /** What every table built by `append` satisfies. */
  ghost predicate WellChained(hash: Hash, rows: seq<Row>) {
    UniqueHashes(rows) && forall m :: 0 <= m < |rows| ==> ChainedAt(hash, rows, m)
  }

  lemma AppendKeepsChain(hash: Hash, maxKeys: nat, rows: seq<Row>, e: ScoringEvent)
    requires WellChained(hash, rows)
    ensures WellChained(hash, Appended(hash, maxKeys, rows, e))
  {
    var rows' := Appended(hash, maxKeys, rows, e);
    if rows' != rows {
      forall m | 0 <= m < |rows'| ensures ChainedAt(hash, rows', m) {
        if m < |rows| {
          assert rows'[..m] == rows[..m];
          assert ChainedAt(hash, rows, m);
        } else {
          assert rows'[..m] == rows;
        }
      }
    }
  }

  lemma {:induction false} AppendAllWellChained(hash: Hash, maxKeys: nat, events: seq<ScoringEvent>)
    ensures WellChained(hash, AppendAll(hash, maxKeys, events))
  {
    if events != [] {
      AppendAllWellChained(hash, maxKeys, events[..|events| - 1]);
      AppendKeepsChain(hash, maxKeys, AppendAll(hash, maxKeys, events[..|events| - 1]), events[|events| - 1]);
    }
  }

  /** Row m's text carries an offset, and it was not older than its wallet's latest row. */
  ghost predicate InOrder(rows: seq<Row>, m: nat)
    requires m < |rows|
  {
    var prev := Latest(rows[..m], rows[m].wallet);
    && rows[m].occurredAt.zoned
    && (prev.Some? ==> prev.value.occurredAt.instant <= rows[m].occurredAt.instant)
  }

  ghost predicate WalletInOrder(rows: seq<Row>, wallet: string) {
    forall m :: 0 <= m < |rows| && rows[m].wallet == wallet ==> InOrder(rows, m)
  }

  // ---------------------------------------------------------------- completeness

  lemma LinkedAppend(hash: Hash, s: seq<Row>, r: Row)
    requires AllLinked(hash, s)
    requires r.chainHash == hash(RowPayload(if s == [] then None else Some(s[|s| - 1].chainHash), FromRow(r)))
    ensures AllLinked(hash, s + [r])
  {
    forall i | 0 <= i < |s| + 1 ensures Linked(hash, s + [r], i) {
      if i < |s| {
        assert Linked(hash, s, i);
        assert PrevHash(s + [r], i) == PrevHash(s, i);
      }
    }
  }

  /** Rows appended in order form a linked history, other wallets' rows notwithstanding. */
  lemma {:induction false} InOrderIsLinked(hash: Hash, rows: seq<Row>, wallet: string)
    requires WellChained(hash, rows) && WalletInOrder(rows, wallet)
    ensures AllLinked(hash, History(rows, wallet))
  {
    if rows != [] {
      var last := |rows| - 1;
      var front := rows[..last];
      ChainPrefix(hash, rows, wallet);
      InOrderIsLinked(hash, front, wallet);
      if rows[last].wallet == wallet {
        LatestIsLast(front, wallet);
        assert ChainedAt(hash, rows, last) && InOrder(rows, last);
        var h := History(front, wallet);
        assert History(rows, wallet) == h + [rows[last]];
        assert FromRow(rows[last]) == rows[last];
        LinkedAppend(hash, h, rows[last]);
      }
    }
  }

  lemma ChainPrefix(hash: Hash, rows: seq<Row>, wallet: string)
    requires rows != [] && WellChained(hash, rows)
    ensures WellChained(hash, rows[..|rows| - 1])
    ensures WalletInOrder(rows, wallet) ==> WalletInOrder(rows[..|rows| - 1], wallet)
  {
    var front := rows[..|rows| - 1];
    forall m | 0 <= m < |front| ensures ChainedAt(hash, front, m) && (InOrder(rows, m) ==> InOrder(front, m)) {
      assert front[..m] == rows[..m];
      assert ChainedAt(hash, rows, m);
    }
  }

  // ---------------------------------------------------------------- and its converse

  lemma LinkedRowsAreZoned(hash: Hash, rows: seq<Row>, m: nat, s: seq<Row>, i: nat)
    requires GoodHash(hash) && WellChained(hash, rows) && m < |rows|
    requires i < |s| && Linked(hash, s, i) && s[i] == rows[m]
    ensures rows[m].occurredAt.zoned
    ensures var prev := Latest(rows[..m], rows[m].wallet);
            PrevOf(PrevHash(s, i)) == PrevOf(if prev.Some? then Some(prev.value.chainHash) else None)
  {
    assert ChainedAt(hash, rows, m);
  }

  lemma {:induction false} LatestIsARow(rows: seq<Row>, wallet: string)
    ensures Latest(rows, wallet).Some? ==> Latest(rows, wallet).value in rows
  {
    if rows != [] {
      LatestIsARow(rows[..|rows| - 1], wallet);
    }
  }

  lemma SameHashSameRow(hash: Hash, rows: seq<Row>, r: Row, q: Row)
    requires WellChained(hash, rows) && r in rows && q in rows && r.chainHash == q.chainHash
    ensures r == q
  {
  }

  lemma RowHashIsGood(hash: Hash, rows: seq<Row>, r: Row)
    requires GoodHash(hash) && WellChained(hash, rows) && r in rows
    ensures r.chainHash != "" && r.chainHash != GENESIS
  {
    var m :| 0 <= m < |rows| && rows[m] == r;
    assert ChainedAt(hash, rows, m);
  }

  /** A linked history can only come from rows appended in order. */
  lemma LinkedIsInOrder(hash: Hash, rows: seq<Row>, wallet: string, m: nat)
    requires GoodHash(hash) && WellChained(hash, rows) && AllLinked(hash, History(rows, wallet))
    requires m < |rows| && rows[m].wallet == wallet
    ensures InOrder(rows, m)
  {
    var h := History(rows, wallet);
    HistoryMembers(rows, wallet, rows[m]);
    var i :| 0 <= i < |h| && h[i] == rows[m];
    assert Linked(hash, h, i);
    LinkedRowsAreZoned(hash, rows, m, h, i);
    var prev := Latest(rows[..m], wallet);
    if prev.Some? {
      LatestIsARow(rows[..m], wallet);
      assert prev.value in rows;
      RowHashIsGood(hash, rows, prev.value);
      assert i > 0;
      HistoryMembers(rows, wallet, h[i - 1]);
      SameHashSameRow(hash, rows, h[i - 1], prev.value);
      HistoryIsSortedWallet(rows, wallet);
    }
  }

  /**
   For every interleaving of appends and every wallet: the verifier answers
   "no events" exactly for wallets without rows; rows appended in time order
   with offsets in their timestamps always verify; and within the replay cap
   nothing else does.
   */
  lemma VerifyAfterAppends(hash: Hash, maxKeys: nat, events: seq<ScoringEvent>, wallet: string, v: Verdict)
    requires GoodHash(hash)
    requires VerdictFor(hash, Take(History(AppendAll(hash, maxKeys, events), wallet), REPLAY_LIMIT), v)
    ensures var rows := AppendAll(hash, maxKeys, events);
      && (v == NoEvents <==> forall r :: r in rows ==> r.wallet != wallet)
      && (v != NoEvents && WalletInOrder(rows, wallet) ==> v.Valid?)
      && (v.Valid? && |History(rows, wallet)| <= REPLAY_LIMIT ==> WalletInOrder(rows, wallet))
  {
    var rows := AppendAll(hash, maxKeys, events);
    var h := History(rows, wallet);
    var s := Take(h, REPLAY_LIMIT);
    AppendAllWellChained(hash, maxKeys, events);
    EmptyHistory(rows, wallet);
    if WalletInOrder(rows, wallet) {
      InOrderIsLinked(hash, rows, wallet);
      TakeLinked(hash, h);
    }
    if v.Valid? && |h| <= REPLAY_LIMIT {
      forall m | 0 <= m < |rows| && rows[m].wallet == wallet ensures InOrder(rows, m) {
        LinkedIsInOrder(hash, rows, wallet, m);
      }
    }
  }

  /** One event whose timestamp has no offset: its own history does not verify. */
  lemma NaiveTimestampFails(hash: Hash, maxKeys: nat, e: ScoringEvent, v: Verdict)
    requires GoodHash(hash) && Refusal(e).None? && 0 <= e.score <= 100 && !e.occurredAt.zoned
    requires VerdictFor(hash, Take(History(AppendAll(hash, maxKeys, [e]), e.wallet), REPLAY_LIMIT), v)
    ensures v == Tampered(1, e.eventId)
  {
    var r := ChainedRow(hash, maxKeys, [], e);
    var none: seq<ScoringEvent> := [e][..0];
    assert AppendAll(hash, maxKeys, none) == [];
    assert AppendAll(hash, maxKeys, [e]) == Appended(hash, maxKeys, [], e) == [] + [r] == [r];
    OneRowHistory(r);
    assert Hashed(r) != RowPayload(None, r);
    assert FirstBreak(hash, [r], 0);
    VerdictUnique(hash, [r], v, Tampered(1, e.eventId));
  }

  lemma OneRowHistory(r: Row)
    ensures History([r], r.wallet) == [r]
  {
  }

  lemma EmptyHistory(rows: seq<Row>, wallet: string)
    ensures History(rows, wallet) == [] <==> forall r :: r in rows ==> r.wallet != wallet
  {
  }

  lemma TakeLinked(hash: Hash, h: seq<Row>)
    requires AllLinked(hash, h)
    ensures AllLinked(hash, Take(h, REPLAY_LIMIT))
  {
    var s := Take(h, REPLAY_LIMIT);
    forall i | 0 <= i < |s| ensures Linked(hash, s, i) {
      assert Linked(hash, h, i);
      assert PrevHash(s, i) == PrevHash(h, i);
    }
  }

  // ---------------------------------------------------------------- tamper evidence

  /** The fields of a replayed row that its chain hash covers. */
  function Hashed(r: Row): Payload { RowPayload(None, FromRow(r)) }

  lemma LinkedHashIsGood(hash: Hash, s: seq<Row>, i: nat)
    requires GoodHash(hash) && AllLinked(hash, s) && i < |s|
    ensures s[i].chainHash != "" && s[i].chainHash != GENESIS
  {
    assert Linked(hash, s, i);
  }

  /** Equal stored hashes: equal hashed fields, and equal predecessors' hashes. */
  lemma SameHashSameLink(hash: Hash, s: seq<Row>, i: nat, t: seq<Row>, j: nat)
    requires GoodHash(hash) && AllLinked(hash, s) && AllLinked(hash, t) && i < |s| && j < |t|
    requires s[i].chainHash == t[j].chainHash
    ensures Hashed(s[i]) == Hashed(t[j])
    ensures i == 0 <==> j == 0
    ensures i > 0 && j > 0 ==> s[i - 1].chainHash == t[j - 1].chainHash
  {
    assert Linked(hash, s, i) && Linked(hash, t, j);
    if i > 0 {
      LinkedHashIsGood(hash, s, i - 1);
    }
    if j > 0 {
      LinkedHashIsGood(hash, t, j - 1);
    }
  }

  /**
   Two histories that verify and end in the same chain hash are of the same
   length and agree on every hashed field of every event.
   */
  lemma {:induction false} SameHeadSameHistory(hash: Hash, s: seq<Row>, t: seq<Row>)
    requires GoodHash(hash) && AllLinked(hash, s) && AllLinked(hash, t) && s != [] && t != []
    requires s[|s| - 1].chainHash == t[|t| - 1].chainHash
    ensures |s| == |t|
    ensures forall i :: 0 <= i < |s| ==> Hashed(s[i]) == Hashed(t[i]) && s[i].chainHash == t[i].chainHash
  {
    SameHashSameLink(hash, s, |s| - 1, t, |t| - 1);
    if |s| > 1 {
      var s', t' := s[..|s| - 1], t[..|t| - 1];
      PrefixLinked(hash, s);
      PrefixLinked(hash, t);
      SameHeadSameHistory(hash, s', t');
      forall i | 0 <= i < |s| ensures Hashed(s[i]) == Hashed(t[i]) && s[i].chainHash == t[i].chainHash {
        if i < |s| - 1 {
          assert s'[i] == s[i] && t'[i] == t[i];
        }
      }
    }
  }

  lemma PrefixLinked(hash: Hash, s: seq<Row>)
    requires AllLinked(hash, s) && s != []
    ensures AllLinked(hash, s[..|s| - 1])
  {
    var front := s[..|s| - 1];
    forall i | 0 <= i < |front| ensures Linked(hash, front, i) {
      assert Linked(hash, s, i);
    }
  }

  /**
   If hashed fields of a verified history were edited while the stored hashes
   and the order were kept, verification reports exactly the first edited event
   if that lies within the replay cap, and nothing otherwise.
   */
  lemma EditIsReportedWithinCap(hash: Hash, s: seq<Row>, t: seq<Row>, i: nat, v: Verdict)
    requires GoodHash(hash) && AllLinked(hash, s) && |t| == |s| && i < |s|
    requires forall k :: 0 <= k < |s| ==> t[k].chainHash == s[k].chainHash
    requires forall k :: 0 <= k < i ==> Hashed(t[k]) == Hashed(s[k])
    requires Hashed(t[i]) != Hashed(s[i])
    requires VerdictFor(hash, Take(t, REPLAY_LIMIT), v)
    ensures var seen := Take(t, REPLAY_LIMIT);
      v == if i < REPLAY_LIMIT then Tampered(|seen|, t[i].eventId) else Valid(|seen|)
  {
    var (x, y) := (Take(s, REPLAY_LIMIT), Take(t, REPLAY_LIMIT));
    TakeLinked(hash, s);
    if i < REPLAY_LIMIT {
      FirstEditIsReported(hash, x, y, i, v);
    } else {
      forall k | 0 <= k < |y| ensures Linked(hash, y, k) {
        assert Linked(hash, x, k) && Hashed(y[k]) == Hashed(x[k]);
        assert PrevHash(y, k) == PrevHash(x, k);
        assert RowPayload(PrevHash(y, k), FromRow(y[k])) == Hashed(y[k]).(prev := PrevOf(PrevHash(y, k)));
        assert RowPayload(PrevHash(x, k), FromRow(x[k])) == Hashed(x[k]).(prev := PrevOf(PrevHash(x, k)));
      }
      VerdictUnique(hash, y, v, Valid(|y|));
    }
  }

  /** The same for a history as it was replayed. */
  lemma FirstEditIsReported(hash: Hash, s: seq<Row>, t: seq<Row>, i: nat, v: Verdict)
    requires GoodHash(hash) && AllLinked(hash, s) && |t| == |s| && i < |s|
    requires forall k :: 0 <= k < |s| ==> t[k].chainHash == s[k].chainHash
    requires forall k :: 0 <= k < i ==> Hashed(t[k]) == Hashed(s[k])
    requires Hashed(t[i]) != Hashed(s[i])
    requires VerdictFor(hash, t, v)
    ensures v == Tampered(|s|, t[i].eventId)
  {
    forall k | 0 <= k <= i ensures Linked(hash, t, k) <==> Hashed(t[k]) == Hashed(s[k]) {
      assert Linked(hash, s, k);
      assert PrevHash(t, k) == PrevHash(s, k);
      assert RowPayload(PrevHash(t, k), FromRow(t[k])) == Hashed(t[k]).(prev := PrevOf(PrevHash(t, k)));
      assert RowPayload(PrevHash(s, k), FromRow(s[k])) == Hashed(s[k]).(prev := PrevOf(PrevHash(s, k)));
    }
    assert FirstBreak(hash, t, i);
    VerdictUnique(hash, t, v, Tampered(|t|, t[i].eventId));
  }

  /**
   Editing event i and recomputing its own hash as well is reported at its
   successor; only the last event of a history can be rewritten unnoticed.
   */
  lemma RehashedEditIsReported(hash: Hash, s: seq<Row>, i: nat, edited: Row, t: seq<Row>, v: Verdict)
    requires GoodHash(hash) && AllLinked(hash, s) && i < |s|
    requires edited.chainHash == hash(RowPayload(PrevHash(s, i), FromRow(edited)))
    requires Hashed(edited) != Hashed(s[i])
    requires t == s[i := edited] && VerdictFor(hash, t, v)
    ensures v == if i + 1 < |s| then Tampered(|s|, s[i + 1].eventId) else Valid(|s|)
  {
    assert RowPayload(PrevHash(s, i), FromRow(edited)) == Hashed(edited).(prev := PrevOf(PrevHash(s, i)));
    assert Linked(hash, s, i);
    LinkedHashIsGood(hash, s, i);
    assert edited.chainHash != s[i].chainHash;
    forall k: nat | k <= i ensures Linked(hash, t, k) {
      assert Linked(hash, s, k);
      assert PrevHash(t, k) == PrevHash(s, k);
    }
    if i + 1 < |s| {
      assert Linked(hash, s, i + 1);
      assert PrevHash(t, i + 1) == Some(edited.chainHash) && PrevHash(s, i + 1) == Some(s[i].chainHash);
      assert !Linked(hash, t, i + 1);
      assert FirstBreak(hash, t, i + 1);
      VerdictUnique(hash, t, v, Tampered(|t|, t[i + 1].eventId));
    } else {
      VerdictUnique(hash, t, v, Valid(|t|));
    }
  }
}
