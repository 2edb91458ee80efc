/**
 What the scoring-event store holds and answers, in terms of the events it was
 given: which events are accepted, that the table is exactly those events, and
 what `current_score` and `replay` of `audit/scoring_events.py` make of them.
 */
module EventRecords {
  import opened Wrappers
  import opened EventChain

  // ---------------------------------------------------------------- which events are accepted

  /** What an event must satisfy by itself. */
  predicate Acceptable(e: ScoringEvent) {
    && (e.triggeredBy == "ingestion" || e.triggeredBy == "manual_recompute"
        || e.triggeredBy == "feedback_boost" || e.triggeredBy == "admin_override")
    && (e.triggeredBy == "admin_override" ==> e.actorId.Some? && e.actorId.value != "")
    && 0 <= e.score && e.score <= 100
  }

  predicate NewId(events: seq<ScoringEvent>, e: ScoringEvent) {
    forall i :: 0 <= i < |events| ==> events[i].eventId != e.eventId
  }

  /** The accepted ones among a run of events, told from the events alone. */
  function Accepted(events: seq<ScoringEvent>): seq<ScoringEvent> {
    if events == [] then []
    else
      var (before, e) := (Accepted(events[..|events| - 1]), events[|events| - 1]);
      if Acceptable(e) && NewId(before, e) then before + [e] else before
  }

  /** The table is these events, one row each, in this order. */
  ghost predicate TableOf(maxKeys: nat, events: seq<ScoringEvent>, rows: seq<Row>) {
    |rows| == |events| && forall i :: 0 <= i < |rows| ==> Records(maxKeys, events[i], rows[i])
  }

  /** With an injective hash, a row of a new event never repeats a stored hash. */
  lemma NewIdHasNewHash(hash: Hash, maxKeys: nat, rows: seq<Row>, e: ScoringEvent, i: nat)
    requires GoodHash(hash) && WellChained(hash, rows) && i < |rows| && rows[i].eventId != e.eventId
    ensures rows[i].chainHash != ChainedRow(hash, maxKeys, rows, e).chainHash
  {
    assert ChainedAt(hash, rows, i);
  }

  lemma AppendRecords(hash: Hash, maxKeys: nat, events: seq<ScoringEvent>, rows: seq<Row>, e: ScoringEvent)
    requires GoodHash(hash) && WellChained(hash, rows) && TableOf(maxKeys, events, rows)
    ensures Acceptable(e) && NewId(events, e) ==>
      Appended(hash, maxKeys, rows, e) == rows + [ChainedRow(hash, maxKeys, rows, e)]
    ensures !(Acceptable(e) && NewId(events, e)) ==> Appended(hash, maxKeys, rows, e) == rows
  {
    var r := ChainedRow(hash, maxKeys, rows, e);
    RowRecordsEvent(hash, maxKeys, rows, e);
    if Acceptable(e) && NewId(events, e) {
      forall i | 0 <= i < |rows| ensures rows[i].eventId != r.eventId && rows[i].chainHash != r.chainHash {
        assert Records(maxKeys, events[i], rows[i]);
        NewIdHasNewHash(hash, maxKeys, rows, e, i);
      }
    } else if !NewId(events, e) {
      var i :| 0 <= i < |events| && events[i].eventId == e.eventId;
      assert Records(maxKeys, events[i], rows[i]);
    }
  }

  /**
   For every run of appends over any wallets: the table is exactly the accepted
   events in order, each row holding its event's own fields; and an event is
   accepted if and only if its trigger, actor and score are permitted and no
   earlier accepted event has its id.  (That the hash column is unique refuses
   nothing more.)
   */
  lemma {:induction false} TableIsAcceptedEvents(hash: Hash, maxKeys: nat, events: seq<ScoringEvent>)
    requires GoodHash(hash)
    ensures TableOf(maxKeys, Accepted(events), AppendAll(hash, maxKeys, events))
  {
    if events != [] {
      var (front, e) := (events[..|events| - 1], events[|events| - 1]);
      var rows := AppendAll(hash, maxKeys, front);
      TableIsAcceptedEvents(hash, maxKeys, front);
      AppendAllWellChained(hash, maxKeys, front);
      AppendRecords(hash, maxKeys, Accepted(front), rows, e);
      RowRecordsEvent(hash, maxKeys, rows, e);
    }
  }

  // ---------------------------------------------------------------- current_score

  /** Event i is the wallet's newest: no later time, and of equal times the last. */
  ghost predicate Newest(events: seq<ScoringEvent>, wallet: string, i: nat) {
    && i < |events| && events[i].wallet == wallet
    && forall j :: 0 <= j < |events| && events[j].wallet == wallet ==>
         if j <= i then events[j].occurredAt.instant <= events[i].occurredAt.instant
         else events[j].occurredAt.instant < events[i].occurredAt.instant
  }

  ghost predicate Absent(events: seq<ScoringEvent>, wallet: string) {
    forall j :: 0 <= j < |events| ==> events[j].wallet != wallet
  }

  lemma NewestAppend(events: seq<ScoringEvent>, e: ScoringEvent, wallet: string, i: nat)
    ensures Newest(events, wallet, i) && !(e.wallet == wallet && events[i].occurredAt.instant <= e.occurredAt.instant) ==>
      Newest(events + [e], wallet, i)
    ensures Newest(events, wallet, i) && e.wallet == wallet && events[i].occurredAt.instant <= e.occurredAt.instant ==>
      Newest(events + [e], wallet, |events|)
    ensures Absent(events, wallet) && e.wallet == wallet ==> Newest(events + [e], wallet, |events|)
    ensures Absent(events + [e], wallet) <==> Absent(events, wallet) && e.wallet != wallet
  {
    var all := events + [e];
    assert forall j :: 0 <= j < |events| ==> all[j] == events[j];
    assert all[|events|] == e;
  }

  /** The row the descending query returns is that of the newest event. */
  lemma {:induction false} LatestIsNewest(maxKeys: nat, events: seq<ScoringEvent>, rows: seq<Row>, wallet: string)
    returns (i: nat)
    requires TableOf(maxKeys, events, rows)
    ensures Latest(rows, wallet).None? <==> Absent(events, wallet)
    ensures Latest(rows, wallet).Some? ==> Newest(events, wallet, i) && Latest(rows, wallet) == Some(rows[i])
  {
    i := 0;
    if rows != [] {
      var last := |rows| - 1;
      var (events', rows') := (events[..last], rows[..last]);
      assert TableOf(maxKeys, events', rows');
      i := LatestIsNewest(maxKeys, events', rows', wallet);
      assert events == events' + [events[last]];
      NewestAppend(events', events[last], wallet, i);
      RowsAgree(maxKeys, events, rows);
      hide Newest, Absent, TableOf;
      var before := Latest(rows', wallet);
      if before.Some? {
        NewestIsEvent(events', wallet, i);
      }
      if rows[last].wallet == wallet && (before.None? || before.value.occurredAt.instant <= rows[last].occurredAt.instant) {
        i := last;
      }
    }
  }

  lemma RowsAgree(maxKeys: nat, events: seq<ScoringEvent>, rows: seq<Row>)
    requires TableOf(maxKeys, events, rows)
    ensures |rows| == |events|
    ensures forall k :: 0 <= k < |rows| ==> rows[k].wallet == events[k].wallet && rows[k].occurredAt == events[k].occurredAt
  {
  }

  lemma NewestIsEvent(events: seq<ScoringEvent>, wallet: string, i: nat)
    requires Newest(events, wallet, i)
    ensures i < |events| && events[i].wallet == wallet
  {
  }

  /** `current_score` is the score of the wallet's newest accepted event, in every run of appends. */
  lemma CurrentScoreIsNewest(store: ScoringEventStore, events: seq<ScoringEvent>, wallet: string) returns (i: nat)
    requires GoodHash(store.hash) && store.rows == AppendAll(store.hash, store.maxFeatureKeys, events)
    ensures store.CurrentScore(wallet).None? <==> forall e :: e in Accepted(events) ==> e.wallet != wallet
    ensures store.CurrentScore(wallet).Some? ==>
      Newest(Accepted(events), wallet, i) && store.CurrentScore(wallet) == Some(Accepted(events)[i].score)
  {
    TableIsAcceptedEvents(store.hash, store.maxFeatureKeys, events);
    i := LatestIsNewest(store.maxFeatureKeys, Accepted(events), store.rows, wallet);
    if store.CurrentScore(wallet).Some? {
      assert Records(store.maxFeatureKeys, Accepted(events)[i], store.rows[i]);
    }
  }

  // ---------------------------------------------------------------- replay

  /** The wallet's events among `events`, in order. */
  function EventsOf(events: seq<ScoringEvent>, wallet: string): seq<ScoringEvent> {
    if events == [] then []
    else
      EventsOf(events[..|events| - 1], wallet)
      + (if events[|events| - 1].wallet == wallet then [events[|events| - 1]] else [])
  }

  ghost predicate TimesInOrder(events: seq<ScoringEvent>) {
    forall i, j :: 0 <= i < j < |events| ==> events[i].occurredAt.instant <= events[j].occurredAt.instant
  }

  /** Accepted in time order, a wallet's history is its accepted events in that order. */
  lemma {:induction false} HistoryIsAccepted(maxKeys: nat, events: seq<ScoringEvent>, rows: seq<Row>, wallet: string)
    requires TableOf(maxKeys, events, rows) && TimesInOrder(EventsOf(events, wallet))
    ensures TableOf(maxKeys, EventsOf(events, wallet), History(rows, wallet))
  {
    if rows != [] {
      var last := |rows| - 1;
      assert Records(maxKeys, events[last], rows[last]);
      assert TableOf(maxKeys, events[..last], rows[..last]);
      var before := EventsOf(events[..last], wallet);
      assert events[last].wallet == wallet ==> EventsOf(events, wallet) == before + [events[last]];
      assert forall k :: 0 <= k < |before| ==> before[k] == EventsOf(events, wallet)[k];
      HistoryIsAccepted(maxKeys, events[..last], rows[..last], wallet);
      var h := History(rows[..last], wallet);
      if events[last].wallet == wallet && h != [] {
        assert Records(maxKeys, before[|h| - 1], h[|h| - 1]);
        assert EventsOf(events, wallet)[|h|] == events[last];
      }
    }
  }

  /** `replay` from a time on: the part of the history that is not older, cut to the limit. */
  lemma ReplayIsTail(store: ScoringEventStore, wallet: string, since: int, limit: nat) returns (cut: nat)
    ensures var h := History(store.rows, wallet);
      && cut <= |h|
      && store.Replay(wallet, Some(since), limit) == Take(h[cut..], limit)
      && (forall k :: 0 <= k < |h| ==> (h[k].occurredAt.instant < since <==> k < cut))
  {
    HistoryIsSortedWallet(store.rows, wallet);
    cut := SinceIsTail(History(store.rows, wallet), since);
  }

  lemma {:induction false} SinceIsTail(h: seq<Row>, since: int) returns (cut: nat)
    requires SortedByTime(h)
    ensures cut <= |h| && Since(h, Some(since)) == h[cut..]
    ensures forall k :: 0 <= k < |h| ==> (h[k].occurredAt.instant < since <==> k < cut)
  {
    if h == [] {
      cut := 0;
    } else if h[0].occurredAt.instant < since {
      var rest := SinceIsTail(h[1..], since);
      cut := rest + 1;
      assert h[1..][rest..] == h[cut..];
      forall k | 0 <= k < |h| ensures h[k].occurredAt.instant < since <==> k < cut {
        assert k > 0 ==> h[k] == h[1..][k - 1];
      }
    } else {
      cut := 0;
      var rest := SinceIsTail(h[1..], since);
      assert h[1..] != [] ==> h[1..][0].occurredAt.instant >= h[0].occurredAt.instant;
      assert rest == 0;
      assert h[1..][0..] == h[1..];
    }
  }

  /**
   Within the cap, the replayed scores of a wallet whose events were accepted in
   time order are those events' scores in order, and `current_score` is the last
   of them.
   */
  lemma ReplayedScores(store: ScoringEventStore, events: seq<ScoringEvent>, wallet: string)
    requires GoodHash(store.hash) && store.rows == AppendAll(store.hash, store.maxFeatureKeys, events)
    requires TimesInOrder(EventsOf(Accepted(events), wallet))
    requires |EventsOf(Accepted(events), wallet)| <= REPLAY_LIMIT
    ensures var (es, replayed) := (EventsOf(Accepted(events), wallet), store.Replay(wallet, None, REPLAY_LIMIT));
      && |replayed| == |es|
      && (forall i :: 0 <= i < |es| ==>
            replayed[i].score == es[i].score && replayed[i].eventId == es[i].eventId
            && replayed[i].occurredAt.instant == es[i].occurredAt.instant)
      && store.CurrentScore(wallet) == if es == [] then None else Some(es[|es| - 1].score)
  {
    TableIsAcceptedEvents(store.hash, store.maxFeatureKeys, events);
    HistoryIsAccepted(store.maxFeatureKeys, Accepted(events), store.rows, wallet);
    var (es, h) := (EventsOf(Accepted(events), wallet), History(store.rows, wallet));
    SinceNone(h);
    CurrentScoreIsLastReplayed(store, wallet);
    forall i | 0 <= i < |es| ensures Records(store.maxFeatureKeys, es[i], h[i]) {
    }
  }
}
