/**
 * The outside world of one run, reduced to what the script can observe: an
 * IMAP session (`imaplib.IMAP4_SSL`) and the HTTP endpoint (`requests.post`)
 * answer from a fixed script of replies, every call is recorded in an event
 * trace, and `time.sleep` advances a clock that `time.time()` reads.
 */
module Session {
  import opened Mime

  datatype Event =
    | Connect(host: string)
    | Login(user: string)
    | SelectFolder(folder: string)
    | Search(criterion: string)
    | Fetch(id: string)
    | Post(url: string, contentType: string, payload: string)
    | DeliveryError(status: int)   // the error log line of a non-200 reply
    | Sleep(seconds: nat)
    | Close
    | Logout

  /**
   * How the servers answer: whether the login is accepted, the status of
   * `select`, the status and id string (`data[0]`) of `search`, the status and
   * parsed message of `fetch` per id, and the status code of a POST per body.
   */
  datatype Script = Script(
    loginAccepted: bool,
    selectStatus: string,
    searchStatus: string,
    searchData: string,
    fetchStatus: string -> string,
    fetchMessage: string -> Message,
    httpStatus: string -> int)
  {
    /** Every fetched message parses into a well-formed tree (see `Mime.WellFormed`). */
    ghost predicate Valid() {
      forall id :: WellFormed(fetchMessage(id).root)
    }
  }

  class Env {
    const script: Script
    var trace: seq<Event>
    var now: nat

    constructor (script: Script, start: nat)
      ensures this.script == script && trace == [] && now == start
    {
      this.script := script;
      trace := [];
      now := start;
    }

    /** `imaplib.IMAP4_SSL(host)` */
    method Connect(host: string)
      modifies this
      ensures trace == old(trace) + [Event.Connect(host)] && now == old(now)
    {
      trace := trace + [Event.Connect(host)];
    }

    /** `mailbox.login(user, password)`; a refusal is the `IMAP4.error` it raises. */
    method Login(user: string, password: string) returns (accepted: bool)
      modifies this
      ensures accepted == script.loginAccepted
      ensures trace == old(trace) + [Event.Login(user)] && now == old(now)
    {
      accepted := script.loginAccepted;
      trace := trace + [Event.Login(user)];
    }

    /** `mailbox.select(folder)[0]` */
    method SelectFolder(folder: string) returns (status: string)
      modifies this
      ensures status == script.selectStatus
      ensures trace == old(trace) + [Event.SelectFolder(folder)] && now == old(now)
    {
      status := script.selectStatus;
      trace := trace + [Event.SelectFolder(folder)];
    }

    /** `mailbox.search(None, criterion)`, with `data[0]` as the id string. */
    method Search(criterion: string) returns (status: string, data: string)
      modifies this
      ensures status == script.searchStatus && data == script.searchData
      ensures trace == old(trace) + [Event.Search(criterion)] && now == old(now)
    {
      status, data := script.searchStatus, script.searchData;
      trace := trace + [Event.Search(criterion)];
    }

    /** `mailbox.fetch(id, '(RFC822)')`, with the message already parsed. */
    method Fetch(id: string) returns (status: string, message: Message)
      modifies this
      ensures status == script.fetchStatus(id) && message == script.fetchMessage(id)
      ensures trace == old(trace) + [Event.Fetch(id)] && now == old(now)
    {
      status, message := script.fetchStatus(id), script.fetchMessage(id);
      trace := trace + [Event.Fetch(id)];
    }

    /** `mailbox.close()` */
    method Close()
      modifies this
      ensures trace == old(trace) + [Event.Close] && now == old(now)
    {
      trace := trace + [Event.Close];
    }

    /** `mailbox.logout()` */
    method Logout()
      modifies this
      ensures trace == old(trace) + [Event.Logout] && now == old(now)
    {
      trace := trace + [Event.Logout];
    }

    /** `requests.post(url, data=payload, headers={'Content-Type': contentType}).status_code` */
    method Post(url: string, contentType: string, payload: string) returns (status: int)
      modifies this
      ensures status == script.httpStatus(payload)
      ensures trace == old(trace) + [Event.Post(url, contentType, payload)] && now == old(now)
    {
      status := script.httpStatus(payload);
      trace := trace + [Event.Post(url, contentType, payload)];
    }

    /** The `LOGGER.error` line for a failed delivery. */
    method LogDeliveryError(status: int)
      modifies this
      ensures trace == old(trace) + [Event.DeliveryError(status)] && now == old(now)
    {
      trace := trace + [Event.DeliveryError(status)];
    }

    /** `time.sleep(seconds)` */
    method Sleep(seconds: nat)
      modifies this
      ensures trace == old(trace) + [Event.Sleep(seconds)] && now == old(now) + seconds
    {
      trace := trace + [Event.Sleep(seconds)];
      now := now + seconds;
    }

    /** `int(time.time())` */
    method Time() returns (t: nat)
      ensures t == now
    {
      t := now;
    }
  }
}
