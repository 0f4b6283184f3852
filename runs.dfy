/**
 * What the run-control specification functions promise about the order and
 * number of the script's actions: the ids are fetched in order and the
 * first one that cannot be delivered ends the batch, every POST is followed
 * by a one-second sleep, the HTTP status only adds log lines, and the IMAP
 * session is closed and logged out exactly when `process_alert` gets that
 * far.
 */
module Runs {
  import opened Wrappers
  import opened Strings
  import opened Mime
  import opened Formatter
  import opened Session
  import opened Processor

  // ---------------------------------------------------------------------
  // Views of an event trace

  /** The ids of the `fetch` calls, in order. */
  function Fetched(es: seq<Event>): seq<string> {
    if es == [] then []
    else (if es[0].Fetch? then [es[0].id] else []) + Fetched(es[1..])
  }

  /** The POSTs (`true`) and sleeps (`false`), in order; every other event is dropped. */
  function Beats(es: seq<Event>): seq<bool> {
    if es == [] then []
    else (if es[0].Post? then [true] else if es[0].Sleep? then [false] else []) + Beats(es[1..])
  }

  /** The trace without the error log lines of non-200 replies. */
  function Delivered(es: seq<Event>): seq<Event> {
    if es == [] then []
    else (if es[0].DeliveryError? then [] else [es[0]]) + Delivered(es[1..])
  }

  /** `n` POSTs, each followed by a sleep and by nothing else before the next POST. */
  function Paced(n: nat): seq<bool> {
    if n == 0 then [] else [true, false] + Paced(n - 1)
  }

  /** `Paced(n)` alternates: POSTs at the even positions, sleeps at the odd ones. */
  lemma {:induction false} PacedAlternates(n: nat)
    ensures |Paced(n)| == 2 * n
    ensures forall k :: 0 <= k < 2 * n ==> (Paced(n)[k] <==> k % 2 == 0)
  {
    if n > 0 {
      PacedAlternates(n - 1);
      var p := Paced(n);
      assert p == [true, false] + Paced(n - 1);
      forall k | 2 <= k < 2 * n ensures (p[k] <==> k % 2 == 0) {
        assert p[k] == Paced(n - 1)[k - 2];
        assert (k - 2) % 2 == k % 2;
      }
    }
  }

  /** The events a batch can produce: no session events among them. */
  predicate BatchEvent(e: Event) {
    e.Fetch? || e.Post? || e.DeliveryError? || e.Sleep?
  }

  predicate AllBatch(es: seq<Event>) {
    forall k :: 0 <= k < |es| ==> BatchEvent(es[k])
  }

  lemma AllBatchAppend(a: seq<Event>, b: seq<Event>)
    requires AllBatch(a) && AllBatch(b)
    ensures AllBatch(a + b)
  {
    forall k | 0 <= k < |a + b| ensures BatchEvent((a + b)[k]) {
      if k >= |a| {
        assert (a + b)[k] == b[k - |a|];
      }
    }
  }

  lemma {:induction false} FetchedAppend(a: seq<Event>, b: seq<Event>)
    ensures Fetched(a + b) == Fetched(a) + Fetched(b)
    decreases |a|
  {
    if a == [] {
      assert a + b == b;
    } else {
      assert (a + b)[0] == a[0];
      assert (a + b)[1..] == a[1..] + b;
      FetchedAppend(a[1..], b);
    }
  }

  lemma {:induction false} BeatsAppend(a: seq<Event>, b: seq<Event>)
    ensures Beats(a + b) == Beats(a) + Beats(b)
    decreases |a|
  {
    if a == [] {
      assert a + b == b;
    } else {
      assert (a + b)[0] == a[0];
      assert (a + b)[1..] == a[1..] + b;
      BeatsAppend(a[1..], b);
    }
  }

  lemma {:induction false} DeliveredAppend(a: seq<Event>, b: seq<Event>)
    ensures Delivered(a + b) == Delivered(a) + Delivered(b)
    decreases |a|
  {
    if a == [] {
      assert a + b == b;
    } else {
      assert (a + b)[0] == a[0];
      assert (a + b)[1..] == a[1..] + b;
      DeliveredAppend(a[1..], b);
    }
  }

  lemma ViewsAppend(a: seq<Event>, b: seq<Event>)
    ensures Fetched(a + b) == Fetched(a) + Fetched(b)
    ensures Beats(a + b) == Beats(a) + Beats(b)
    ensures Delivered(a + b) == Delivered(a) + Delivered(b)
  {
    FetchedAppend(a, b);
    BeatsAppend(a, b);
    DeliveredAppend(a, b);
  }

  // ---------------------------------------------------------------------
  // `send_slack_message`

  /** One POST to the end point with the JSON header; a log line exactly when the status is not 200. */
  lemma SendOnce(cfg: Config, sc: Script, payload: string)
    ensures var es := SendEvents(cfg, sc, payload);
      && es[0] == Post(cfg.endPoint, JsonContentType, payload)
      && (|es| == 2 <==> sc.httpStatus(payload) != 200)
      && |es| <= 2
      && (|es| == 2 ==> es[1] == DeliveryError(sc.httpStatus(payload)))
      && Delivered(es) == [Post(cfg.endPoint, JsonContentType, payload)]
      && Beats(es) == [true]
      && Fetched(es) == []
  {
    var es := SendEvents(cfg, sc, payload);
    var post := Post(cfg.endPoint, JsonContentType, payload);
    if sc.httpStatus(payload) != 200 {
      ViewsAppend([post], [DeliveryError(sc.httpStatus(payload))]);
    } else {
      assert es == [post];
    }
  }

  // ---------------------------------------------------------------------
  // One message

  /** The formatting of a message fails or succeeds, and with which error, whatever the time. */
  lemma FormatTimeIndependent(cfg: Config, msg: Message, ts: nat, ts': nat)
    ensures FormatMessage(cfg, msg, ts).Ok? == FormatMessage(cfg, msg, ts').Ok?
    ensures FormatMessage(cfg, msg, ts).Err? ==> FormatMessage(cfg, msg, ts) == FormatMessage(cfg, msg, ts')
  {
  }

  /** An id is delivered when its fetch succeeds and its message can be formatted. */
  predicate Deliverable(cfg: Config, sc: Script, id: string) {
    sc.fetchStatus(id) == OkStatus && FormatMessage(cfg, sc.fetchMessage(id), 0).Ok?
  }

  /** The events of one id that is fetched and formatted: the fetch, the POST (and log line), the sleep. */
  lemma DeliveredMessage(cfg: Config, sc: Script, id: string, payload: string)
    ensures var es := [Fetch(id)] + SendEvents(cfg, sc, payload) + [Sleep(1)];
      && Fetched(es) == [id]
      && Beats(es) == [true, false]
      && AllBatch(es)
  {
    var sent := SendEvents(cfg, sc, payload);
    var es := [Fetch(id)] + sent + [Sleep(1)];
    SendOnce(cfg, sc, payload);
    ViewsAppend([Fetch(id)], sent);
    ViewsAppend([Fetch(id)] + sent, [Sleep(1)]);
    forall k | 0 <= k < |es| ensures BatchEvent(es[k]) {
      if 0 < k < |es| - 1 {
        assert es[k] == sent[k - 1];
      }
    }
  }

  /** The pacing facts of `MessageShape` alone. */
  lemma MessagePacing(cfg: Config, sc: Script, id: string, now: nat)
    ensures var r := MessageRun(cfg, sc, id, now);
      && (r.outcome.Finished? <==> Deliverable(cfg, sc, id))
      && Beats(r.events) == (if r.outcome.Finished? then [true, false] else [])
      && r.clock == (if r.outcome.Finished? then now + 1 else now)
  {
    MessageShape(cfg, sc, id, now);
  }

  /**
   * One id: one fetch; a delivered id adds one POST, one sleep and one second,
   * anything else ends the batch with the error it met and no POST.
   */
  lemma MessageShape(cfg: Config, sc: Script, id: string, now: nat)
    ensures var r := MessageRun(cfg, sc, id, now);
      && Fetched(r.events) == [id]
      && AllBatch(r.events)
      && (r.outcome.Finished? <==> Deliverable(cfg, sc, id))
      && (r.outcome.Finished? ==> Beats(r.events) == [true, false] && r.clock == now + 1)
      && (!r.outcome.Finished? ==> Beats(r.events) == [] && r.clock == now)
      && (sc.fetchStatus(id) != OkStatus ==> r.outcome == FetchAborted(id))
      && (sc.fetchStatus(id) == OkStatus && !Deliverable(cfg, sc, id) ==>
            r.outcome == Raised(FormatMessage(cfg, sc.fetchMessage(id), 0).error))
  {
    var r := MessageRun(cfg, sc, id, now);
    var formatted := FormatMessage(cfg, sc.fetchMessage(id), now);
    FormatTimeIndependent(cfg, sc.fetchMessage(id), now, 0);
    if sc.fetchStatus(id) == OkStatus && formatted.Ok? {
      assert r == Run([Fetch(id)] + SendEvents(cfg, sc, formatted.value) + [Sleep(1)], Finished, now + 1);
      DeliveredMessage(cfg, sc, id, formatted.value);
    } else {
      assert r.events == [Fetch(id)];
    }
  }

  // ---------------------------------------------------------------------
  // The batch

  /** The position of the first id that is not delivered; `|ids|` when there is none. */
  function FirstUndeliverable(cfg: Config, sc: Script, ids: seq<string>): (f: nat)
    ensures f <= |ids|
    ensures forall k :: 0 <= k < f ==> Deliverable(cfg, sc, ids[k])
    ensures f < |ids| ==> !Deliverable(cfg, sc, ids[f])
    decreases |ids|
  {
    if ids == [] then 0
    else if !Deliverable(cfg, sc, ids[0]) then 0
    else 1 + FirstUndeliverable(cfg, sc, ids[1..])
  }

  /**
   * The `for num in ids` loop: with `f` the first id that is not delivered,
   * exactly the ids up to and including it are fetched, in order; each of the
   * `f` delivered ones is posted and followed by a one-second sleep; the
   * batch finishes normally exactly when every id is delivered, and otherwise
   * ends with the failed fetch or the formatting error of id `f` (the error
   * does not depend on the time stamp, so it is stated at time 0).
   */
  lemma BatchShape(cfg: Config, sc: Script, ids: seq<string>, now: nat)
    ensures var b := BatchRun(cfg, sc, ids, now);
      var f := FirstUndeliverable(cfg, sc, ids);
      && Fetched(b.events) == (if f < |ids| then ids[..f + 1] else ids)
      && Beats(b.events) == Paced(f)
      && b.clock == now + f
      && AllBatch(b.events)
      && (b.outcome.Finished? <==> f == |ids|)
      && (f < |ids| && sc.fetchStatus(ids[f]) != OkStatus ==> b.outcome == FetchAborted(ids[f]))
      && (f < |ids| && sc.fetchStatus(ids[f]) == OkStatus ==>
            b.outcome == Raised(FormatMessage(cfg, sc.fetchMessage(ids[f]), 0).error))
  {
    BatchFetched(cfg, sc, ids, now);
    BatchPacing(cfg, sc, ids, now);
    BatchClock(cfg, sc, ids, now);
    BatchKinds(cfg, sc, ids, now);
    BatchOutcome(cfg, sc, ids, now);
  }

  lemma ConsPrefix(ids: seq<string>, f: nat)
    requires 0 < |ids| && f <= |ids|
    ensures f < |ids| ==> ids[..f + 1] == [ids[0]] + ids[1..][..f]
    ensures f == |ids| ==> ids == [ids[0]] + ids[1..]
  {
  }

  /** The ids fetched by the batch: in order, up to and including the first one not delivered. */
  lemma {:induction false} BatchFetched(cfg: Config, sc: Script, ids: seq<string>, now: nat)
    ensures var b := BatchRun(cfg, sc, ids, now);
      var f := FirstUndeliverable(cfg, sc, ids);
      Fetched(b.events) == (if f < |ids| then ids[..f + 1] else ids)
    decreases |ids|
  {
    if ids != [] {
      var r := MessageRun(cfg, sc, ids[0], now);
      var f := FirstUndeliverable(cfg, sc, ids);
      MessageShape(cfg, sc, ids[0], now);
      if r.outcome.Finished? {
        var rest := BatchRun(cfg, sc, ids[1..], now + 1);
        assert BatchRun(cfg, sc, ids, now) == Run(r.events + rest.events, rest.outcome, rest.clock);
        BatchFetched(cfg, sc, ids[1..], now + 1);
        assert f == 1 + FirstUndeliverable(cfg, sc, ids[1..]);
        FetchedAppend(r.events, rest.events);
        ConsPrefix(ids, f);
      } else {
        assert BatchRun(cfg, sc, ids, now) == r;
        ConsPrefix(ids, 0);
      }
    }
  }

  /** One POST and one sleep per delivered id. */
  lemma {:induction false} BatchPacing(cfg: Config, sc: Script, ids: seq<string>, now: nat)
    ensures var b := BatchRun(cfg, sc, ids, now);
      var f := FirstUndeliverable(cfg, sc, ids);
      Beats(b.events) == Paced(f)
    decreases |ids|
  {
    if ids != [] {
      var r := MessageRun(cfg, sc, ids[0], now);
      MessagePacing(cfg, sc, ids[0], now);
      if r.outcome.Finished? {
        var rest := BatchRun(cfg, sc, ids[1..], now + 1);
        var g := FirstUndeliverable(cfg, sc, ids[1..]);
        BatchPacing(cfg, sc, ids[1..], now + 1);
        BeatsAppend(r.events, rest.events);
        calc {
          Beats(BatchRun(cfg, sc, ids, now).events);
          Beats(r.events + rest.events);
          [true, false] + Paced(g);
          Paced(g + 1);
          Paced(FirstUndeliverable(cfg, sc, ids));
        }
      } else {
        assert BatchRun(cfg, sc, ids, now).events == r.events;
      }
    }
  }
  /** One second per delivered id. */
  lemma {:induction false} BatchClock(cfg: Config, sc: Script, ids: seq<string>, now: nat)
    ensures var b := BatchRun(cfg, sc, ids, now);
      var f := FirstUndeliverable(cfg, sc, ids);
      b.clock == now + f
    decreases |ids|
  {
    if ids != [] {
      var r := MessageRun(cfg, sc, ids[0], now);
      var f := FirstUndeliverable(cfg, sc, ids);
      MessagePacing(cfg, sc, ids[0], now);
      if r.outcome.Finished? {
        var rest := BatchRun(cfg, sc, ids[1..], now + 1);
        assert BatchRun(cfg, sc, ids, now) == Run(r.events + rest.events, rest.outcome, rest.clock);
        BatchClock(cfg, sc, ids[1..], now + 1);
        assert f == 1 + FirstUndeliverable(cfg, sc, ids[1..]);
      } else {
        assert BatchRun(cfg, sc, ids, now) == r;
      }
    }
  }

  /** The batch performs no session action. */
  lemma {:induction false} BatchKinds(cfg: Config, sc: Script, ids: seq<string>, now: nat)
    ensures var b := BatchRun(cfg, sc, ids, now);
      var f := FirstUndeliverable(cfg, sc, ids);
      AllBatch(b.events)
    decreases |ids|
  {
    if ids != [] {
      var r := MessageRun(cfg, sc, ids[0], now);
      var f := FirstUndeliverable(cfg, sc, ids);
      MessageShape(cfg, sc, ids[0], now);
      if r.outcome.Finished? {
        var rest := BatchRun(cfg, sc, ids[1..], now + 1);
        assert BatchRun(cfg, sc, ids, now) == Run(r.events + rest.events, rest.outcome, rest.clock);
        BatchKinds(cfg, sc, ids[1..], now + 1);
        assert f == 1 + FirstUndeliverable(cfg, sc, ids[1..]);
        AllBatchAppend(r.events, rest.events);
      } else {
        assert BatchRun(cfg, sc, ids, now) == r;
      }
    }
  }

  /** The outcome part of `BatchShape`. */
  lemma {:induction false} BatchOutcome(cfg: Config, sc: Script, ids: seq<string>, now: nat)
    ensures var b := BatchRun(cfg, sc, ids, now);
      var f := FirstUndeliverable(cfg, sc, ids);
      && (b.outcome.Finished? <==> f == |ids|)
      && (f < |ids| ==> sc.fetchStatus(ids[f]) != OkStatus ==> b.outcome == FetchAborted(ids[f]))
      && (f < |ids| ==> sc.fetchStatus(ids[f]) == OkStatus ==>
            b.outcome == Raised(FormatMessage(cfg, sc.fetchMessage(ids[f]), 0).error))
    decreases |ids|
  {
    if ids != [] {
      var r := MessageRun(cfg, sc, ids[0], now);
      var f := FirstUndeliverable(cfg, sc, ids);
      MessageShape(cfg, sc, ids[0], now);
      if r.outcome.Finished? {
        var rest := BatchRun(cfg, sc, ids[1..], now + 1);
        assert BatchRun(cfg, sc, ids, now).outcome == rest.outcome;
        BatchOutcome(cfg, sc, ids[1..], now + 1);
        var g := FirstUndeliverable(cfg, sc, ids[1..]);
        assert f == 1 + g;
        if g < |ids[1..]| {
          assert ids[f] == ids[1..][g];
        }
      } else {
        assert BatchRun(cfg, sc, ids, now) == r;
      }
    }
  }

  /**
   * The first failed fetch: when every id before position `j` is delivered
   * and the fetch of `ids[j]` fails, the batch fetches exactly `ids[..j + 1]`,
   * posts `j` times, and returns normally with that id.
   */
  lemma FetchFailureStops(cfg: Config, sc: Script, ids: seq<string>, j: nat, now: nat)
    requires j < |ids| && sc.fetchStatus(ids[j]) != OkStatus
    requires forall k :: 0 <= k < j ==> Deliverable(cfg, sc, ids[k])
    ensures var b := BatchRun(cfg, sc, ids, now);
      && b.outcome == FetchAborted(ids[j])
      && Fetched(b.events) == ids[..j + 1]
      && Beats(b.events) == Paced(j)
      && multiset(Beats(b.events))[true] == j
  {
    var f := FirstUndeliverable(cfg, sc, ids);
    assert f == j;
    BatchShape(cfg, sc, ids, now);
    PacedCount(j);
  }

  /** `Paced(n)` holds `n` POSTs and `n` sleeps. */
  lemma {:induction false} PacedCount(n: nat)
    ensures multiset(Paced(n))[true] == n && multiset(Paced(n))[false] == n
  {
    if n > 0 {
      PacedCount(n - 1);
      assert multiset(Paced(n)) == multiset([true, false]) + multiset(Paced(n - 1));
    }
  }

  /** When the search fails nothing but the search happens. */
  lemma SearchFailure(cfg: Config, sc: Script, now: nat)
    requires sc.searchStatus != OkStatus
    ensures MailboxRun(cfg, sc, now) == Run([Search(UnseenCriterion)], Finished, now)
  {
  }

  /** The mailbox pass: one search for unseen messages, then the batch over its ids, nothing else. */
  lemma MailboxShape(cfg: Config, sc: Script, now: nat)
    ensures var m := MailboxRun(cfg, sc, now);
      && m.events[0] == Search(UnseenCriterion)
      && (forall k :: 1 <= k < |m.events| ==> BatchEvent(m.events[k]))
      && (m.outcome.Raised? ==> sc.searchStatus == OkStatus)
  {
    var m := MailboxRun(cfg, sc, now);
    if sc.searchStatus == OkStatus {
      var b := BatchRun(cfg, sc, Split(sc.searchData), now);
      BatchShape(cfg, sc, Split(sc.searchData), now);
      forall k | 1 <= k < |m.events| ensures BatchEvent(m.events[k]) {
        assert m.events[k] == b.events[k - 1];
      }
    }
  }

  // ---------------------------------------------------------------------
  // The HTTP status

  /**
   * A POST that Slack refuses is only logged: two scripts that differ in the
   * status codes alone give the same run once the log lines are dropped.
   */
  lemma {:induction false} StatusIrrelevant(cfg: Config, sc: Script, h: string -> int, ids: seq<string>, now: nat)
    ensures var b, b' := BatchRun(cfg, sc, ids, now), BatchRun(cfg, sc.(httpStatus := h), ids, now);
      Delivered(b.events) == Delivered(b'.events) && b.outcome == b'.outcome && b.clock == b'.clock
    decreases |ids|
  {
    if ids != [] {
      var sc' := sc.(httpStatus := h);
      var r, r' := MessageRun(cfg, sc, ids[0], now), MessageRun(cfg, sc', ids[0], now);
      if sc.fetchStatus(ids[0]) == OkStatus && FormatMessage(cfg, sc.fetchMessage(ids[0]), now).Ok? {
        var payload := FormatMessage(cfg, sc.fetchMessage(ids[0]), now).value;
        var sent, sent' := SendEvents(cfg, sc, payload), SendEvents(cfg, sc', payload);
        SendOnce(cfg, sc, payload);
        SendOnce(cfg, sc', payload);
        ViewsAppend([Fetch(ids[0])], sent);
        ViewsAppend([Fetch(ids[0])] + sent, [Sleep(1)]);
        ViewsAppend([Fetch(ids[0])], sent');
        ViewsAppend([Fetch(ids[0])] + sent', [Sleep(1)]);
        assert Delivered(r.events) == Delivered(r'.events);
        StatusIrrelevant(cfg, sc, h, ids[1..], now + 1);
        ViewsAppend(r.events, BatchRun(cfg, sc, ids[1..], now + 1).events);
        ViewsAppend(r'.events, BatchRun(cfg, sc', ids[1..], now + 1).events);
      }
    }
  }

  // ---------------------------------------------------------------------
  // `process_alert`

  /** A refused login ends the process with status 1 right after the login attempt. */
  lemma LoginFailure(cfg: Config, sc: Script, now: nat)
    requires !sc.loginAccepted
    ensures AlertRun(cfg, sc, now) == Alert([Connect(cfg.mailServer), Login(cfg.mailLogin)], Exited(1))
  {
  }

  /** A folder that cannot be selected is logged and the session logged out, without a search. */
  lemma SelectFailure(cfg: Config, sc: Script, now: nat)
    requires sc.loginAccepted && sc.selectStatus != OkStatus
    ensures AlertRun(cfg, sc, now)
         == Alert([Connect(cfg.mailServer), Login(cfg.mailLogin), SelectFolder(cfg.folder), Logout], Exited(0))
  {
  }

  /**
   * How `process_alert` ends: it always connects and tries to log in first;
   * it exits with status 1 exactly when the login is refused, and crashes
   * exactly when the folder was selected and a message raised.
   */
  lemma AlertResult(cfg: Config, sc: Script, now: nat)
    ensures var a := AlertRun(cfg, sc, now);
      && a.events[..2] == [Connect(cfg.mailServer), Login(cfg.mailLogin)]
      && (a.result == Exited(1) <==> !sc.loginAccepted)
      && (a.result.Crashed? <==>
            sc.loginAccepted && sc.selectStatus == OkStatus && MailboxRun(cfg, sc, now).outcome.Raised?)
      && (a.result.Exited? ==> a.result.status == 0 || a.result.status == 1)
  {
    var a := AlertRun(cfg, sc, now);
    var start := [Connect(cfg.mailServer), Login(cfg.mailLogin)];
    if sc.loginAccepted && sc.selectStatus == OkStatus {
      var m := MailboxRun(cfg, sc, now);
      var before := start + [SelectFolder(cfg.folder)] + m.events;
      assert before[..2] == start;
      if !m.outcome.Raised? {
        assert a == Alert(before + [Close, Logout], Exited(0));
        assert a.events[..2] == before[..2];
      } else {
        assert a == Alert(before, Crashed(m.outcome.error));
      }
    }
  }

  /**
   * The session's end: after a successful login the process logs out exactly
   * once, as its last action, unless a message raised; `close` comes right
   * before it exactly when the folder was selected; a crash releases nothing.
   */
  lemma SessionRelease(cfg: Config, sc: Script, now: nat)
    ensures var a := AlertRun(cfg, sc, now);
      var es := a.events;
      && multiset(es)[Logout] == (if sc.loginAccepted && a.result.Exited? then 1 else 0)
      && (sc.loginAccepted && a.result.Exited? ==> es[|es| - 1] == Logout)
      && multiset(es)[Close] == (if sc.selectStatus == OkStatus && a.result == Exited(0) then 1 else 0)
      && (Close in es ==> es[|es| - 2] == Close)
  {
    var a := AlertRun(cfg, sc, now);
    var start := [Connect(cfg.mailServer), Login(cfg.mailLogin)];
    if sc.loginAccepted && sc.selectStatus == OkStatus {
      var m := MailboxRun(cfg, sc, now);
      var before := start + [SelectFolder(cfg.folder)] + m.events;
      MailboxKeepsSession(cfg, sc, now);
      assert multiset(before) == multiset(start) + multiset([SelectFolder(cfg.folder)]) + multiset(m.events);
      if !m.outcome.Raised? {
        assert a == Alert(before + [Close, Logout], Exited(0));
        assert multiset(a.events) == multiset(before) + multiset([Close, Logout]);
      } else {
        assert a == Alert(before, Crashed(m.outcome.error));
      }
    } else if sc.loginAccepted {
      assert a.events == start + [SelectFolder(cfg.folder), Logout];
    }
  }

  /** The mailbox pass neither closes nor logs out. */
  lemma MailboxKeepsSession(cfg: Config, sc: Script, now: nat)
    ensures var es := MailboxRun(cfg, sc, now).events;
      multiset(es)[Logout] == 0 && multiset(es)[Close] == 0
  {
    var es := MailboxRun(cfg, sc, now).events;
    MailboxShape(cfg, sc, now);
    assert Logout !in es && Close !in es by {
      forall k | 0 <= k < |es| ensures es[k] != Logout && es[k] != Close {
        if k > 0 { assert BatchEvent(es[k]); }
      }
    }
  }
}
