/**
 * Run control: `send_slack_message`, the `process_mailbox` loop over the
 * unseen ids and the login/select/close/logout sequence of `process_alert`.
 * Each method is proved to append to the trace exactly the events of a
 * specification function (`SendEvents`, `MailboxRun`, `AlertRun`), and the
 * ordering and counting rules are proved about those functions.
 */
module Processor {
  import opened Wrappers
  import opened Strings
  import opened Mime
  import opened Selector
  import opened Formatter
  import opened Session

  const OkStatus := "OK"
  const JsonContentType := "application/json"
  const UnseenCriterion := "UNSEEN"

  /** How `process_mailbox` ends: a normal return (after the last id or on a failed fetch) or an exception. */
  datatype MailboxOutcome = Finished | FetchAborted(id: string) | Raised(error: FormatError)

  /** The events a stretch of the run adds, how it ends, and the clock afterwards. */
  datatype Run = Run(events: seq<Event>, outcome: MailboxOutcome, clock: nat)

  /** How the process ends: an exit status, or an exception nobody catches. */
  datatype RunResult = Exited(status: int) | Crashed(error: FormatError)

  datatype Alert = Alert(events: seq<Event>, result: RunResult)

  // ---------------------------------------------------------------------
  // Specification functions

  /** One POST with the JSON header; a status other than 200 is only logged. */
  function SendEvents(cfg: Config, sc: Script, payload: string): seq<Event> {
    var status := sc.httpStatus(payload);
    [Post(cfg.endPoint, JsonContentType, payload)] + (if status != 200 then [DeliveryError(status)] else [])
  }

  /** Fetch one id, then either stop, raise, or send and sleep one second. */
  function MessageRun(cfg: Config, sc: Script, id: string, now: nat): Run {
    if sc.fetchStatus(id) != OkStatus then Run([Fetch(id)], FetchAborted(id), now)
    else
      match FormatMessage(cfg, sc.fetchMessage(id), now)
      case Err(e) => Run([Fetch(id)], Raised(e), now)
      case Ok(payload) => Run([Fetch(id)] + SendEvents(cfg, sc, payload) + [Sleep(1)], Finished, now + 1)
  }

  /** The `for num in ids` loop: ids in order, the first one that does not finish ends the batch. */
  function BatchRun(cfg: Config, sc: Script, ids: seq<string>, now: nat): Run
    decreases |ids|
  {
    if ids == [] then Run([], Finished, now)
    else
      var r := MessageRun(cfg, sc, ids[0], now);
      if !r.outcome.Finished? then r
      else
        var rest := BatchRun(cfg, sc, ids[1..], r.clock);
        Run(r.events + rest.events, rest.outcome, rest.clock)
  }

  /** `process_mailbox`: search for unseen messages, then the batch over `data[0].split()`. */
  function MailboxRun(cfg: Config, sc: Script, now: nat): Run {
    if sc.searchStatus != OkStatus then Run([Search(UnseenCriterion)], Finished, now)
    else
      var b := BatchRun(cfg, sc, Split(sc.searchData), now);
      Run([Search(UnseenCriterion)] + b.events, b.outcome, b.clock)
  }

  /** `process_alert` from the connection on. */
  function AlertRun(cfg: Config, sc: Script, now: nat): Alert {
    var start := [Connect(cfg.mailServer), Login(cfg.mailLogin)];
    if !sc.loginAccepted then Alert(start, Exited(1))
    else if sc.selectStatus != OkStatus then Alert(start + [SelectFolder(cfg.folder), Logout], Exited(0))
    else
      var m := MailboxRun(cfg, sc, now);
      if m.outcome.Raised? then Alert(start + [SelectFolder(cfg.folder)] + m.events, Crashed(m.outcome.error))
      else Alert(start + [SelectFolder(cfg.folder)] + m.events + [Close, Logout], Exited(0))
  }

  // ---------------------------------------------------------------------
  // The script's functions as methods over the environment

  /** `send_slack_message` */
  method SendSlackMessage(cfg: Config, env: Env, payload: string)
    modifies env
    ensures env.trace == old(env.trace) + SendEvents(cfg, env.script, payload)
    ensures env.now == old(env.now)
  {
    var status := env.Post(cfg.endPoint, JsonContentType, payload);
    if status != 200 {
      env.LogDeliveryError(status);
    }
  }

  /**
   * The formatting part of the loop body: sender, body, subject, time stamp
   * and template, raising (here: returning `Err`) where the script would.
   */
  method BuildPayload(cfg: Config, msg: Message, ts: nat) returns (r: Result<string, FormatError>)
    requires WellFormed(msg.root)
    ensures r == FormatMessage(cfg, msg, ts)
  {
    if msg.fromHeader.None? {
      return Err(MissingFrom);
    }
    var sender := Sender(msg.fromHeader.value);
    if sender.None? {
      return Err(BlankFrom);
    }
    var subject := msg.subjectHeader;
    var content := GetText(msg.root);
    if content.None? {
      return Err(NoTextPart);
    }
    if subject.None? {
      return Err(MissingSubject);
    }
    return Ok(Payload(cfg, sender.value, subject.value, content.value.text, ts));
  }

  /** One pass of the `for num in ids` body: fetch, format, send, sleep. */
  method HandleMessage(cfg: Config, env: Env, num: string) returns (outcome: MailboxOutcome)
    requires env.script.Valid()
    modifies env
    ensures var r := MessageRun(cfg, env.script, num, old(env.now));
      env.trace == old(env.trace) + r.events && outcome == r.outcome && env.now == r.clock
  {
    ghost var t0, now0 := env.trace, env.now;
    ghost var run := MessageRun(cfg, env.script, num, now0);
    var typ, msg := env.Fetch(num);
    if typ != OkStatus {
      assert run == Run([Fetch(num)], FetchAborted(num), now0);
      return FetchAborted(num);
    }
    var ts := env.Time();
    var formatted := BuildPayload(cfg, msg, ts);
    if formatted.Err? {
      assert run == Run([Fetch(num)], Raised(formatted.error), now0);
      return Raised(formatted.error);
    }
    ghost var sent := SendEvents(cfg, env.script, formatted.value);
    assert run == Run([Fetch(num)] + sent + [Sleep(1)], Finished, now0 + 1);
    SendSlackMessage(cfg, env, formatted.value);
    env.Sleep(1);
    AppendAssoc(t0 + [Fetch(num)], sent, [Sleep(1)]);
    AppendAssoc(t0, [Fetch(num)], sent);
    AppendAssoc(t0, [Fetch(num)] + sent, [Sleep(1)]);
    return Finished;
  }

  /**
   * One step of the batch: an id that does not finish ends it; one that
   * finishes is followed by the batch over the remaining ids.
   */
  lemma BatchStep(cfg: Config, sc: Script, ids: seq<string>, now: nat, t: seq<Event>)
    requires ids != []
    ensures var r := MessageRun(cfg, sc, ids[0], now);
      && (!r.outcome.Finished? ==> BatchRun(cfg, sc, ids, now) == r)
      && (r.outcome.Finished? ==>
            var rest := BatchRun(cfg, sc, ids[1..], r.clock);
            && (t + r.events) + rest.events == t + BatchRun(cfg, sc, ids, now).events
            && rest.outcome == BatchRun(cfg, sc, ids, now).outcome
            && rest.clock == BatchRun(cfg, sc, ids, now).clock)
  {
    var r := MessageRun(cfg, sc, ids[0], now);
    if r.outcome.Finished? {
      var rest := BatchRun(cfg, sc, ids[1..], r.clock);
      assert BatchRun(cfg, sc, ids, now).events == r.events + rest.events;
      assert (t + r.events) + rest.events == t + (r.events + rest.events);
    }
  }

  lemma AppendAssoc(a: seq<Event>, b: seq<Event>, c: seq<Event>)
    ensures (a + b) + c == a + (b + c)
  {
  }

  /** The `for num in ids` loop of `process_mailbox`. */
  method ProcessIds(cfg: Config, env: Env, ids: seq<string>) returns (outcome: MailboxOutcome)
    requires env.script.Valid()
    modifies env
    ensures var r := BatchRun(cfg, env.script, ids, old(env.now));
      env.trace == old(env.trace) + r.events && outcome == r.outcome && env.now == r.clock
  {
    ghost var sc := env.script;
    ghost var start := env.trace;
    ghost var whole := BatchRun(cfg, sc, ids, env.now);
    var i := 0;
    while i < |ids|
      invariant 0 <= i <= |ids|
      invariant var rest := BatchRun(cfg, sc, ids[i..], env.now);
        && start + whole.events == env.trace + rest.events
        && whole.outcome == rest.outcome && whole.clock == rest.clock
    {
      var num := ids[i];
      assert ids[i..][0] == num && ids[i..][1..] == ids[i + 1..];
      BatchStep(cfg, sc, ids[i..], env.now, env.trace);
      var step := HandleMessage(cfg, env, num);
      if !step.Finished? {
        return step;
      }
      i := i + 1;
    }
    assert ids[i..] == [];
    assert env.trace == start + whole.events;
    return Finished;
  }

  /** `process_mailbox`: the id list is computed once, before the loop. */
  method ProcessMailbox(cfg: Config, env: Env) returns (outcome: MailboxOutcome)
    requires env.script.Valid()
    modifies env
    ensures var r := MailboxRun(cfg, env.script, old(env.now));
      env.trace == old(env.trace) + r.events && outcome == r.outcome && env.now == r.clock
  {
    var receive, data := env.Search(UnseenCriterion);
    if receive != OkStatus {
      return Finished;
    }
    var ids := Split(data);
    outcome := ProcessIds(cfg, env, ids);
    AppendAssoc(old(env.trace), [Search(UnseenCriterion)], BatchRun(cfg, env.script, ids, old(env.now)).events);
  }

  /** `process_alert`, given the configuration. */
  method ProcessAlert(cfg: Config, env: Env) returns (result: RunResult)
    requires env.script.Valid()
    modifies env
    ensures var a := AlertRun(cfg, env.script, old(env.now));
      env.trace == old(env.trace) + a.events && result == a.result
    ensures env.now == if env.script.loginAccepted && env.script.selectStatus == OkStatus
                       then MailboxRun(cfg, env.script, old(env.now)).clock else old(env.now)
  {
    ghost var t0, now0 := env.trace, env.now;
    ghost var a := AlertRun(cfg, env.script, now0);
    ghost var start := [Connect(cfg.mailServer), Login(cfg.mailLogin)];
    env.Connect(cfg.mailServer);
    var accepted := env.Login(cfg.mailLogin, cfg.mailPassword);
    AppendAssoc(t0, [Connect(cfg.mailServer)], [Login(cfg.mailLogin)]);
    assert env.trace == t0 + start;
    if !accepted {
      assert a == Alert(start, Exited(1));
      return Exited(1);
    }
    var receive := env.SelectFolder(cfg.folder);
    if receive != OkStatus {
      env.Logout();
      AppendAssoc(t0 + start, [SelectFolder(cfg.folder)], [Logout]);
      AppendAssoc(t0, start, [SelectFolder(cfg.folder), Logout]);
      assert a == Alert(start + [SelectFolder(cfg.folder), Logout], Exited(0));
      return Exited(0);
    }
    ghost var m := MailboxRun(cfg, env.script, now0);
    ghost var selected := start + [SelectFolder(cfg.folder)];
    AppendAssoc(t0, start, [SelectFolder(cfg.folder)]);
    assert env.trace == t0 + selected;
    result := ServeFolder(cfg, env);
    if m.outcome.Raised? {
      assert a == Alert(selected + m.events, Crashed(m.outcome.error));
      AppendAssoc(t0, selected, m.events);
    } else {
      assert a == Alert(selected + m.events + [Close, Logout], Exited(0));
      AppendAssoc(t0, selected, m.events);
      AppendAssoc(t0, selected + m.events, [Close, Logout]);
      AppendAssoc(selected, m.events, [Close, Logout]);
    }
  }

  /** `process_alert` once the folder is selected: the mailbox, then close and logout unless it raised. */
  method ServeFolder(cfg: Config, env: Env) returns (result: RunResult)
    requires env.script.Valid()
    modifies env
    ensures var m := MailboxRun(cfg, env.script, old(env.now));
      && (m.outcome.Raised? ==> env.trace == old(env.trace) + m.events && result == Crashed(m.outcome.error))
      && (!m.outcome.Raised? ==> env.trace == old(env.trace) + m.events + [Close, Logout] && result == Exited(0))
      && env.now == m.clock
  {
    var outcome := ProcessMailbox(cfg, env);
    if outcome.Raised? {
      return Crashed(outcome.error);
    }
    ghost var t1 := env.trace;
    env.Close();
    env.Logout();
    AppendAssoc(t1, [Close], [Logout]);
    return Exited(0);
  }
}
