/**
 * Building the notification sent for one message: the sender taken from the
 * `From` header, the quote escaping of the body, and the hand-built template
 * the values are spliced into. The template is a string, not a JSON
 * encoding: it writes `"short": False`.
 */
module Formatter {
  import opened Wrappers
  import opened Strings
  import opened Mime
  import opened Selector

  /** The eight configuration values the script reads. */
  datatype Config = Config(
    endPoint: string,
    slackSender: string,
    iconUrl: string,
    slackFallback: string,
    mailServer: string,
    mailLogin: string,
    mailPassword: string,
    folder: string)

  /** Why building the notification raises for a fetched message. */
  datatype FormatError =
    | MissingFrom      // `msg['from']` is None: `None.split()` fails
    | BlankFrom        // `msg['from'].split()` is empty: `[-1]` fails
    | NoTextPart       // `get_text` gave None: `content[1]` fails
    | MissingSubject   // `msg['Subject']` is None: string + None fails

  /** `msg['from'].split()[-1]`: the last whitespace-separated token of the header. */
  function Sender(from: string): (r: Option<string>)
    ensures r.None? <==> AllSpace(from)
    ensures r.Some? ==> exists i, j :: LastTokenAt(from, i, j) && r.value == from[i..j]
  {
    var tokens := Split(from);
    SplitEmptyIff(from);
    if tokens == [] then None
    else
      SplitLastToken(from);
      Some(tokens[|tokens| - 1])
  }

  /** `body.replace('"', '\\"')`: a backslash goes in front of every double quote. */
  function Escape(s: string): string {
    if s == [] then []
    else (if s[0] == '"' then "\\\"" else [s[0]]) + Escape(s[1..])
  }

  /** Deletes the backslash immediately before each double quote. */
  function Unescape(s: string): string {
    if s == [] then []
    else if |s| >= 2 && s[0] == '\\' && s[1] == '"' then "\"" + Unescape(s[2..])
    else [s[0]] + Unescape(s[1..])
  }

  lemma {:induction false} EscapeLength(s: string)
    ensures |Escape(s)| == |s| + Count(s, '"')
  {
    if s != [] {
      EscapeLength(s[1..]);
    }
  }

  /** Every double quote of the escaped body has a backslash right before it. */
  lemma {:induction false} EscapedQuotesArePreceded(s: string)
    ensures forall k :: 0 <= k < |Escape(s)| && Escape(s)[k] == '"' ==> k > 0 && Escape(s)[k - 1] == '\\'
  {
    if s != [] {
      EscapedQuotesArePreceded(s[1..]);
      var h := if s[0] == '"' then "\\\"" else [s[0]];
      var t := Escape(s[1..]);
      assert Escape(s) == h + t;
      // the escaped tail never starts with a quote
      EscapeHead(s[1..]);
      forall k | 0 <= k < |h + t| && (h + t)[k] == '"' ensures k > 0 && (h + t)[k - 1] == '\\' {
        if k >= |h| {
          assert (h + t)[k] == t[k - |h|];
          if k - |h| > 0 {
            assert (h + t)[k - 1] == t[k - |h| - 1];
          }
        }
      }
    }
  }

  lemma EscapeHead(s: string)
    ensures Escape(s) != [] ==> Escape(s)[0] != '"'
  {
  }

  /** Removing the inserted backslashes gives back the body: other characters keep their order. */
  lemma {:induction false} UnescapeEscape(s: string)
    ensures Unescape(Escape(s)) == s
  {
    if s != [] {
      var t := Escape(s[1..]);
      UnescapeEscape(s[1..]);
      if s[0] == '"' {
        assert Escape(s) == "\\\"" + t;
        assert (Escape(s))[2..] == t;
      } else {
        assert Escape(s) == [s[0]] + t;
        assert Escape(s)[1..] == t;
        EscapeHead(s[1..]);
      }
    }
  }

  lemma EscapeInjective(s: string, s': string)
    requires Escape(s) == Escape(s')
    ensures s == s'
  {
    UnescapeEscape(s);
    UnescapeEscape(s');
  }

  /** Escaping changes a body exactly when it has a double quote. */
  lemma {:induction false} EscapeUnchangedIff(s: string)
    ensures Escape(s) == s <==> '"' !in s
  {
    EscapeLength(s);
    if s != [] {
      EscapeUnchangedIff(s[1..]);
      if s[0] != '"' {
        assert Escape(s) == [s[0]] + Escape(s[1..]);
        assert ([s[0]] + Escape(s[1..]))[1..] == Escape(s[1..]);
        assert s == [s[0]] + s[1..];
      } else {
        CountPositive(s);
      }
    }
  }

  lemma CountPositive(s: string)
    requires s != [] && s[0] == '"'
    ensures Count(s, '"') > 0
  {
  }

  /** Escaping is not idempotent: a second pass changes a body that has a quote. */
  lemma EscapeTwiceIff(s: string)
    ensures Escape(Escape(s)) == Escape(s) <==> '"' !in s
  {
    EscapeUnchangedIff(Escape(s));
    EscapeUnchangedIff(s);
    EscapeKeepsQuote(s);
  }

  lemma {:induction false} EscapeKeepsQuote(s: string)
    ensures '"' in s ==> '"' in Escape(s)
  {
    if s != [] {
      EscapeKeepsQuote(s[1..]);
      assert s == [s[0]] + s[1..];
    }
  }

  /** `"key": "value"` as it stands in the template. */
  function Field(key: string, value: string): string {
    "\"" + key + "\": \"" + value + "\""
  }

  const FooterIconUrl := "https://platform.slack-edge.com/img/default_application_icon.png"

  // The fixed stretches of the template between the spliced values. Each
  // backslash-newline of the literal drops only the line break, so a
  // stretch of padding is the spaces before the backslash plus the
  // indentation of the next line.
  const Opening := "{" + Spaces(59)
  const AfterUsername := "," + Spaces(24)
  const AttachmentsOpen := "," + Spaces(28) + "\"attachments\": [" + Spaces(57) + "{" + Spaces(72)
  const ColorPretextPieces := [",", Spaces(22), Field("color", "warning"), ",", Spaces(50),
                                Field("pretext", ""), ",", Spaces(55)]
  const ColorPretext := Concat(ColorPretextPieces)
  const AuthorLinks := "," + Spaces(37) + Field("author_link", "") + "," + Spaces(51)
                       + Field("author_icon", "") + "," + Spaces(51)
  const TitleLink := "," + Spaces(42) + Field("title_link", "") + "," + Spaces(52)
  const FieldsFooterPieces := [",", Spaces(20), "\"fields\": [", Spaces(62), "{", Spaces(72),
                                Field("title", "Priority"), ",", Spaces(49),
                                Field("value", "Medium"), ",", Spaces(51),
                                "\"short\": False", Spaces(51), "}", Spaces(64), "],", Spaces(67),
                                Field("image_url", ""), ",", Spaces(53),
                                Field("thumb_url", ""), ",", Spaces(53),
                                Field("footer", "Slack API"), ",", Spaces(47),
                                Field("footer_icon", FooterIconUrl), ",", Spaces(21)]
  const FieldsFooter := Concat(FieldsFooterPieces)
  const TsKey := "\"ts\": "
  const Closing := Spaces(30) + "}" + Spaces(64) + "]" + Spaces(64) + "}"

  /**
   * The pieces of the `slack_msg` string in order: configuration values,
   * sender, subject, escaped body and `str(int(time.time()))`, spliced
   * between the fixed stretches.
   */
  function Template(cfg: Config, sender: string, subject: string, body: string, ts: nat): seq<string> {
    [ Opening, Field("username", cfg.slackSender), AfterUsername,
      Field("icon_url", cfg.iconUrl), AttachmentsOpen,
      Field("fallback", cfg.slackFallback), ColorPretext,
      Field("author_name", sender), AuthorLinks,
      Field("title", subject), TitleLink,
      Field("text", Escape(body)), FieldsFooter,
      TsKey + Decimal(ts), Closing ]
  }

  function Payload(cfg: Config, sender: string, subject: string, body: string, ts: nat): string {
    Concat(Template(cfg, sender, subject, body, ts))
  }

  /**
   * The payload opens with `{`, the 59 spaces that the first continuation
   * line leaves, and the `username` key.
   */
  lemma PayloadOpening(cfg: Config, sender: string, subject: string, body: string, ts: nat)
    ensures var r := Payload(cfg, sender, subject, body, ts);
      && |r| > 60 && r[..60] == "{" + Spaces(59)
      && Field("username", cfg.slackSender) <= r[60..]
  {
    var ps := Template(cfg, sender, subject, body, ts);
    var r := Concat(ps);
    var rest := Concat(ps[2..]);
    assert Concat(ps[1..]) == ps[1] + rest by { assert ps[1..][1..] == ps[2..]; }
    assert r == Opening + (ps[1] + rest);
    assert r[60..] == ps[1] + rest;
  }

  /**
   * The values are inserted verbatim (only the body is escaped), next to their
   * keys, and the fixed fields carry their constants.
   */
  lemma PayloadFields(cfg: Config, sender: string, subject: string, body: string, ts: nat)
    ensures var r := Payload(cfg, sender, subject, body, ts);
      && Contains(r, Field("username", cfg.slackSender))
      && Contains(r, Field("icon_url", cfg.iconUrl))
      && Contains(r, Field("fallback", cfg.slackFallback))
      && Contains(r, Field("author_name", sender))
      && Contains(r, Field("title", subject))
      && Contains(r, Field("text", Escape(body)))
      && Contains(r, Field("color", "warning"))
      && Contains(r, Field("value", "Medium"))
      && Contains(r, Field("footer", "Slack API"))
      && Contains(r, TsKey + Decimal(ts))
  {
    var ps := Template(cfg, sender, subject, body, ts);
    var r := Concat(ps);
    ConcatContains(ps, 1);
    ConcatContains(ps, 3);
    ConcatContains(ps, 5);
    ConcatContains(ps, 7);
    ConcatContains(ps, 9);
    ConcatContains(ps, 11);
    ConcatContains(ps, 13);
    ConcatContains(ps, 6);
    ConcatContains(ps, 12);
    ColorConstant();
    FooterConstants();
    ContainsTransitive(r, ColorPretext, Field("color", "warning"));
    ContainsTransitive(r, FieldsFooter, Field("value", "Medium"));
    ContainsTransitive(r, FieldsFooter, Field("footer", "Slack API"));
  }

  lemma ColorConstant()
    ensures Contains(ColorPretext, Field("color", "warning"))
  {
    ConcatContains(ColorPretextPieces, 2);
  }

  lemma FooterConstants()
    ensures Contains(FieldsFooter, Field("value", "Medium"))
    ensures Contains(FieldsFooter, Field("footer", "Slack API"))
  {
    PriorityValue();
    FooterName();
  }

  lemma PriorityValue()
    ensures Contains(FieldsFooter, Field("value", "Medium"))
  {
    ConcatContains(FieldsFooterPieces, 9);
  }

  lemma FooterName()
    ensures Contains(FieldsFooter, Field("footer", "Slack API"))
  {
    ConcatContains(FieldsFooterPieces, 24);
  }

  /** The payload splits into a part fixed by the headers, the text field, and a part fixed by the time. */
  lemma PayloadSplit(cfg: Config, sender: string, subject: string, body: string, ts: nat)
    ensures Payload(cfg, sender, subject, body, ts)
         == Concat(Template(cfg, sender, subject, body, ts)[..11]) + Field("text", Escape(body))
            + FieldsFooter + TsKey + Decimal(ts) + Closing
  {
    var ps := Template(cfg, sender, subject, body, ts);
    assert ps == ps[..11] + ps[11..];
    ConcatAppend(ps[..11], ps[11..]);
    var f, d := Field("text", Escape(body)), TsKey + Decimal(ts);
    assert ps[11..] == [f, FieldsFooter, d, Closing];
    assert ps[11..][1..] == [FieldsFooter, d, Closing];
    assert ps[11..][2..] == [d, Closing];
    assert ps[11..][3..] == [Closing];
    assert Concat([Closing]) == Closing;
    assert Concat([d, Closing]) == d + Closing;
    assert Concat([FieldsFooter, d, Closing]) == FieldsFooter + (d + Closing);
    assert Concat(ps[11..]) == f + (FieldsFooter + (d + Closing));
  }

  /** The payload determines the body: escaping loses nothing and the template keeps it apart. */
  lemma PayloadDeterminesBody(cfg: Config, sender: string, subject: string, b: string, b': string, ts: nat)
    requires Payload(cfg, sender, subject, b, ts) == Payload(cfg, sender, subject, b', ts)
    ensures b == b'
  {
    PayloadSplit(cfg, sender, subject, b, ts);
    PayloadSplit(cfg, sender, subject, b', ts);
    var h := Concat(Template(cfg, sender, subject, b, ts)[..11]);
    assert Template(cfg, sender, subject, b, ts)[..11] == Template(cfg, sender, subject, b', ts)[..11];
    var f, f' := Field("text", Escape(b)), Field("text", Escape(b'));
    var r := h + f + FieldsFooter + TsKey + Decimal(ts) + Closing;
    assert r == h + f' + FieldsFooter + TsKey + Decimal(ts) + Closing;
    assert |f| == |f'|;
    assert f == r[|h|..|h| + |f|];
    assert f' == r[|h|..|h| + |f|];
    assert Escape(b) == f[9..|f| - 1];
    assert Escape(b') == f'[9..|f'| - 1];
    EscapeInjective(b, b');
  }

  /** The payload determines the time stamp it was built with. */
  lemma PayloadDeterminesTime(cfg: Config, sender: string, subject: string, body: string, ts: nat, ts': nat)
    requires Payload(cfg, sender, subject, body, ts) == Payload(cfg, sender, subject, body, ts')
    ensures ts == ts'
  {
    PayloadSplit(cfg, sender, subject, body, ts);
    PayloadSplit(cfg, sender, subject, body, ts');
    var h := Concat(Template(cfg, sender, subject, body, ts)[..11]) + Field("text", Escape(body)) + FieldsFooter + TsKey;
    assert Template(cfg, sender, subject, body, ts)[..11] == Template(cfg, sender, subject, body, ts')[..11];
    var d, d' := Decimal(ts), Decimal(ts');
    assert h + d + Closing == h + d' + Closing;
    assert |d| == |d'|;
    assert d == (h + d + Closing)[|h|..|h| + |d|];
    assert d' == (h + d' + Closing)[|h|..|h| + |d|];
    DecimalRoundTrip(ts);
    DecimalRoundTrip(ts');
  }

  /** Escaping works character by character, so it distributes over concatenation. */
  lemma {:induction false} EscapeAppend(a: string, b: string)
    ensures Escape(a + b) == Escape(a) + Escape(b)
  {
    if a == [] {
      assert a + b == b;
    } else {
      assert (a + b)[1..] == a[1..] + b;
      EscapeAppend(a[1..], b);
    }
  }

  /** A body such as `He said "hi"` is sent as `He said \"hi\"`: only the quotes change. */
  lemma EscapeQuoted(a: string, b: string)
    requires '"' !in a && '"' !in b
    ensures Escape(a + "\"" + b + "\"") == a + "\\\"" + b + "\\\""
  {
    var q := "\"";
    EscapeAppend(a + q + b, q);
    EscapeAppend(a + q, b);
    EscapeAppend(a, q);
    EscapeUnchangedIff(a);
    EscapeUnchangedIff(b);
  }

  /** A `From` value `Display Name <address>` gives the sender `<address>`. */
  lemma SenderOfNamedAddress(name: string, address: string)
    requires IsToken(address)
    ensures Sender(name + " " + address) == Some(address)
  {
    var from := name + " " + address;
    var n := |name| + 1;
    assert from[n..] == address;
    assert !IsSpace(from[n]);
    var r := Sender(from);
    var i, j :| LastTokenAt(from, i, j) && r.value == from[i..j];
    assert LastTokenAt(from, n, |from|) by {
      assert from[n - 1] == ' ';
      forall k | n <= k < |from| ensures !IsSpace(from[k]) {
        assert from[k] == address[k - n];
      }
    }
    LastTokenUnique(from, i, j, n, |from|);
    assert from[n..|from|] == address;
  }

  /**
   * Building the notification for a fetched message, in the order the script
   * evaluates it: sender (:76), body (:78-80), subject (:93), then the template.
   */
  function FormatMessage(cfg: Config, msg: Message, ts: nat): Result<string, FormatError> {
    match msg.fromHeader
    case None => Err(MissingFrom)
    case Some(from) =>
      match Sender(from)
      case None => Err(BlankFrom)
      case Some(sender) =>
        match Select(msg.root)
        case None => Err(NoTextPart)
        case Some(content) =>
          match msg.subjectHeader
          case None => Err(MissingSubject)
          case Some(subject) => Ok(Payload(cfg, sender, subject, content.text, ts))
  }

  /** Which message raises, and with which error; the time plays no part in it. */
  lemma FormatOutcome(cfg: Config, msg: Message, ts: nat)
    requires WellFormed(msg.root)
    ensures var r := FormatMessage(cfg, msg, ts);
      && (msg.fromHeader.None? ==> r == Err(MissingFrom))
      && (msg.fromHeader.Some? && AllSpace(msg.fromHeader.value) ==> r == Err(BlankFrom))
      && (msg.fromHeader.Some? && !AllSpace(msg.fromHeader.value) && NoText(Walk(msg.root)) ==> r == Err(NoTextPart))
      && ((msg.fromHeader.Some? && !AllSpace(msg.fromHeader.value) && !NoText(Walk(msg.root))
           && msg.subjectHeader.None?) ==> r == Err(MissingSubject))
      && (r.Ok? <==> msg.fromHeader.Some? && !AllSpace(msg.fromHeader.value)
                     && !NoText(Walk(msg.root)) && msg.subjectHeader.Some?)
  {
    SelectNoneIffNoText(msg.root);
  }

  /**
   * A plain alert such as `Ops Team <ops@example.com>` / `Alert` / `disk full`:
   * `author_name` is the bracketed address, `title` the subject and `text`
   * the body, unchanged when it has no quote.
   */
  lemma PlainAlert(cfg: Config, name: string, address: string, subject: string, body: string, ts: nat)
    requires IsToken(address) && '"' !in body
    ensures var msg := Message(Some(name + " " + address), Some(subject), Leaf(ContentType("text", "plain"), body));
      && FormatMessage(cfg, msg, ts) == Ok(Payload(cfg, address, subject, body, ts))
      && Contains(FormatMessage(cfg, msg, ts).value, Field("author_name", address))
      && Contains(FormatMessage(cfg, msg, ts).value, Field("title", subject))
      && Contains(FormatMessage(cfg, msg, ts).value, Field("text", body))
  {
    SenderOfNamedAddress(name, address);
    EscapeUnchangedIff(body);
    PayloadFields(cfg, address, subject, body, ts);
  }
}
