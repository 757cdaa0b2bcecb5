/**
 * send_notification.py: the validation of email_config.json, the order of
 * SMTP calls for the two transports (implicit TLS on port 465, STARTTLS on
 * any other port), and the command line's subject, body and exit code.
 * The SMTP server is a parameter: `failsAt` is the index of the first call
 * that raises.
 */
module Mailer {

  import opened Options
  import opened Text
  import opened JsonValue

  /** email_config.json as load_config finds it: absent, unreadable or not JSON, or decoded. */
  datatype ConfigFile = Missing | Unreadable | Parsed(doc: Json)

  /** The keys load_config demands, each present and truthy. */
  const RequiredKeys: seq<string> := ["smtp_server", "smtp_port", "smtp_username", "smtp_password", "target_email"]

  /** int(v) on a decoded JSON value; None where Python raises ValueError or TypeError. */
  function PythonInt(v: Json): (r: Option<int>)
    ensures v.JInt? ==> r == Some(v.i)
    ensures v.JBool? ==> r == Some(if v.b then 1 else 0)
    ensures v.JFloat? ==> r.Some? && (v.f >= 0.0 ==> 0.0 <= r.value as real <= v.f < r.value as real + 1.0)
    ensures v.JFloat? ==> (v.f < 0.0 ==> r.value as real - 1.0 < v.f <= r.value as real <= 0.0)
    ensures v.JStr? ==> r == ParseInt(v.s)
    ensures v.JNull? || v.JArr? || v.JObj? ==> r.None?
  {
    match v
    case JBool(b) => Some(if b then 1 else 0)
    case JInt(i) => Some(i)
    case JFloat(f) => Some(if f >= 0.0 then f.Floor else -((-f).Floor))
    case JStr(s) => ParseInt(s)
    case _ => None
  }

  /** The demanded keys: present with a truthy value. */
  predicate Complete(fields: map<string, Json>)
  {
    forall k :: k in RequiredKeys ==> k in fields && Truthy(fields[k])
  }

  /**
   * load_config(): None when the file is missing, unreadable, not a JSON
   * object, lacks a demanded key or has a falsy one, or has a port int()
   * refuses; otherwise the same object with smtp_port made an integer.
   */
  function LoadConfig(file: ConfigFile): (r: Option<map<string, Json>>)
    ensures r.Some? <==>
              file.Parsed? && file.doc.JObj? && Complete(file.doc.fields) &&
              PythonInt(file.doc.fields["smtp_port"]).Some?
    ensures r.Some? ==>
              && r.value.Keys == file.doc.fields.Keys
              && r.value["smtp_port"] == JInt(PythonInt(file.doc.fields["smtp_port"]).value)
              && forall k :: k in r.value && k != "smtp_port" ==> r.value[k] == file.doc.fields[k]
  {
    match file
    case Parsed(JObj(fields)) =>
      if Complete(fields) then
        match PythonInt(fields["smtp_port"])
        case Some(n) => Some(fields["smtp_port" := JInt(n)])
        case None => None
      else None
    case _ => None
  }

  /** What a loaded configuration provides: every demanded key, the port an integer. */
  predicate Loaded(config: map<string, Json>)
  {
    (forall k :: k in RequiredKeys ==> k in config) && config["smtp_port"].JInt?
  }

  lemma LoadConfigLoaded(file: ConfigFile)
    requires LoadConfig(file).Some?
    ensures Loaded(LoadConfig(file).value)
  {
  }

  /** The message send_email builds. */
  datatype Message = Message(subject: string, sender: Json, recipient: Json, body: string)

  /** One call on the SMTP connection. `Connect` is the constructor, SMTP_SSL when `implicitTls`. */
  datatype Call =
    | Connect(implicitTls: bool, host: Json, port: int, timeout: nat)
    | Ehlo
    | StartTls
    | Login(user: Json, password: Json)
    | SendMessage(message: Message)
    | Quit

  /** The calls send_email makes when none raises. */
  function Plan(config: map<string, Json>, subject: string, body: string): seq<Call>
    requires Loaded(config)
  {
    var port := config["smtp_port"].i;
    var msg := Message(subject, config["smtp_username"], config["target_email"], body);
    var tail := [Login(config["smtp_username"], config["smtp_password"]), SendMessage(msg), Quit];
    if port == 465 then [Connect(true, config["smtp_server"], port, 30)] + tail
    else [Connect(false, config["smtp_server"], port, 30), Ehlo, StartTls, Ehlo] + tail
  }

  /** The connection is encrypted by the calls so far: it was opened with TLS, or STARTTLS was issued. */
  predicate Encrypted(calls: seq<Call>)
  {
    calls != [] && ((calls[0].Connect? && calls[0].implicitTls) || StartTls in calls)
  }

  /**
   * The transport choice: port 465 connects with implicit TLS and nothing
   * else does; the password is only ever sent over an encrypted connection,
   * right after the TLS connect on 465 and otherwise right after the EHLO
   * that follows STARTTLS; the message follows the login
   * and the connection is closed last.
   */
  lemma PlanTransport(config: map<string, Json>, subject: string, body: string)
    requires Loaded(config)
    ensures var plan := Plan(config, subject, body);
      && plan[0].Connect? && plan[0].port == config["smtp_port"].i && plan[0].timeout == 30
      && (plan[0].implicitTls <==> config["smtp_port"].i == 465)
      && (config["smtp_port"].i != 465 ==> |plan| > 4 && plan[1..4] == [Ehlo, StartTls, Ehlo])
      && plan[if config["smtp_port"].i == 465 then 1 else 4] == Login(config["smtp_username"], config["smtp_password"])
      && (forall i :: 0 <= i < |plan| && plan[i].Login? ==>
            Encrypted(plan[..i]) &&
            if config["smtp_port"].i == 465 then i == 1 else 3 <= i && plan[i - 2] == StartTls && plan[i - 1] == Ehlo)
      && (forall i :: 0 <= i < |plan| && plan[i].SendMessage? ==> 0 < i && plan[i - 1].Login?)
      && plan[|plan| - 1] == Quit
  {
    var plan := Plan(config, subject, body);
    var port := config["smtp_port"].i;
    var login := Login(config["smtp_username"], config["smtp_password"]);
    var send := SendMessage(Message(subject, config["smtp_username"], config["target_email"], body));
    if port == 465 {
      assert plan == [Connect(true, config["smtp_server"], port, 30), login, send, Quit];
      assert plan[..1] == [plan[0]];
    } else {
      assert plan == [Connect(false, config["smtp_server"], port, 30), Ehlo, StartTls, Ehlo, login, send, Quit];
      assert plan[..4] == [plan[0], Ehlo, StartTls, Ehlo];
    }
    forall i | 0 <= i < |plan| && plan[i].SendMessage?
      ensures 0 < i && plan[i - 1].Login?
    {
      assert i == |plan| - 2;
    }
    forall i | 0 <= i < |plan| && plan[i].Login?
      ensures Encrypted(plan[..i]) &&
              if port == 465 then i == 1 else 3 <= i && plan[i - 2] == StartTls && plan[i - 1] == Ehlo
    {
      if port == 465 {
        assert i == 1;
      } else {
        assert i == 4;
      }
    }
  }

  /** A header value EmailMessage refuses with ValueError: one str.splitlines() cuts into more than one line. */
  predicate Multiline(s: string)
  {
    |SplitLines(s)| > 1
  }

  /** A From or To value that is refused: a str holding a line break before its end. */
  predicate HeaderRefused(v: Json)
  {
    v.JStr? && Multiline(v.s)
  }

  /** Setting Subject, From and To on the message raises ValueError, before the `try` block. */
  predicate HeadersRaise(config: map<string, Json>, subject: string)
    requires Loaded(config)
  {
    Multiline(subject) || HeaderRefused(config["smtp_username"]) || HeaderRefused(config["target_email"])
  }

  /** send_email raises its ValueError: the configuration loads and a header is refused. */
  predicate RaisesValueError(file: ConfigFile, subject: string)
  {
    match LoadConfig(file)
    case None => false
    case Some(config) =>
      LoadConfigLoaded(file);
      HeadersRaise(config, subject)
  }

  /** The calls made, cut after the first that raises, when the configuration loads and the headers are accepted. */
  function Transcript(file: ConfigFile, subject: string, body: string, failsAt: nat): seq<Call>
  {
    match LoadConfig(file)
    case None => []
    case Some(config) =>
      LoadConfigLoaded(file);
      if HeadersRaise(config, subject) then []
      else
        var plan := Plan(config, subject, body);
        plan[..Min(|plan|, failsAt + 1)]
  }

  /** send_email's result: the configuration loads, the headers are accepted and no call raises. */
  predicate Delivered(file: ConfigFile, subject: string, body: string, failsAt: nat)
  {
    match LoadConfig(file)
    case None => false
    case Some(config) =>
      LoadConfigLoaded(file);
      !HeadersRaise(config, subject) && failsAt >= |Plan(config, subject, body)|
  }

  /** Without a valid configuration nothing is attempted and the email is not delivered. */
  lemma InvalidConfigSendsNothing(file: ConfigFile, subject: string, body: string, failsAt: nat)
    requires LoadConfig(file).None?
    ensures Transcript(file, subject, body, failsAt) == [] && !Delivered(file, subject, body, failsAt)
  {
  }

  /** A refused header stops send_email before the connection is opened: no call, no delivery. */
  lemma RefusedHeaderSendsNothing(file: ConfigFile, subject: string, body: string, failsAt: nat)
    requires RaisesValueError(file, subject)
    ensures Transcript(file, subject, body, failsAt) == [] && !Delivered(file, subject, body, failsAt)
  {
  }

  /** A line break inside a header value raises; one at its very end does not. */
  lemma InnerBreakRaises(a: string, b: string)
    requires forall k :: 0 <= k < |a| ==> !IsLineBreak(a[k])
    ensures Multiline(a + "\n" + b) <==> b != []
  {
    SplitLinesAtBreak(a, b);
  }

  /** Whatever raises, every login in the transcript is over an encrypted connection. */
  lemma TranscriptLoginsEncrypted(file: ConfigFile, subject: string, body: string, failsAt: nat)
    ensures var t := Transcript(file, subject, body, failsAt);
      forall i :: 0 <= i < |t| && t[i].Login? ==> Encrypted(t[..i])
  {
    if LoadConfig(file).Some? && !RaisesValueError(file, subject) {
      var config := LoadConfig(file).value;
      LoadConfigLoaded(file);
      var plan := Plan(config, subject, body);
      PlanTransport(config, subject, body);
      var t := Transcript(file, subject, body, failsAt);
      forall i | 0 <= i < |t| && t[i].Login?
        ensures Encrypted(t[..i])
      {
        assert t[..i] == plan[..i];
      }
    }
  }

  /** A delivered email went through the whole plan, the message sent once and the connection closed. */
  lemma DeliveredRanWholePlan(file: ConfigFile, config: map<string, Json>, subject: string, body: string, failsAt: nat)
    requires LoadConfig(file) == Some(config) && Loaded(config)
    requires Delivered(file, subject, body, failsAt)
    ensures var t := Transcript(file, subject, body, failsAt);
      && |t| >= 2
      && t[|t| - 1] == Quit
      && t[|t| - 2] == SendMessage(Message(subject, config["smtp_username"], config["target_email"], body))
  {
    var plan := Plan(config, subject, body);
    assert Transcript(file, subject, body, failsAt) == plan;
  }

  /** The SMTP connection object, recording the calls made on it; calls from index `failsAt` on raise. */
  class SmtpSession {
    var calls: seq<Call>
    const failsAt: nat

    constructor (failsAt: nat)
      ensures calls == [] && this.failsAt == failsAt
    {
      calls := [];
      this.failsAt := failsAt;
    }

    method Perform(c: Call) returns (ok: bool)
      modifies this
      ensures calls == old(calls) + [c]
      ensures ok <==> |old(calls)| < failsAt
    {
      ok := |calls| < failsAt;
      calls := calls + [c];
    }
  }

  /**
   * Where send_email's `try` block stands before the `j`-th call of `plan`:
   * either every call so far went through, or the calls stopped just after
   * the one that raised.
   */
  ghost predicate Progress(calls: seq<Call>, failsAt: nat, ok: bool, plan: seq<Call>, j: nat)
  {
    j <= |plan| &&
    if ok then calls == plan[..j] && j <= failsAt
    else calls == plan[..Min(|plan|, failsAt + 1)] && failsAt < j
  }

  /** One statement of the `try` block: the call `c`, the `j`-th of `plan`, made unless an earlier one raised. */
  method Step(server: SmtpSession, ok: bool, c: Call, ghost plan: seq<Call>, ghost j: nat) returns (ok': bool)
    requires j < |plan| && plan[j] == c
    requires Progress(server.calls, server.failsAt, ok, plan, j)
    modifies server
    ensures Progress(server.calls, server.failsAt, ok', plan, j + 1)
  {
    ok' := ok;
    if ok {
      ok' := server.Perform(c);
      assert plan[..j] + [c] == plan[..j + 1];
    }
  }

  /** The opening of the connection: SMTP_SSL on port 465, otherwise SMTP, EHLO, STARTTLS and EHLO again. */
  method Open(server: SmtpSession, cfg: map<string, Json>, ghost plan: seq<Call>) returns (ok: bool)
    requires Loaded(cfg) && |plan| >= 4 && server.calls == []
    requires var port := cfg["smtp_port"].i;
      if port == 465 then plan[0] == Connect(true, cfg["smtp_server"], port, 30)
      else plan[..4] == [Connect(false, cfg["smtp_server"], port, 30), Ehlo, StartTls, Ehlo]
    modifies server
    ensures Progress(server.calls, server.failsAt, ok, plan, if cfg["smtp_port"].i == 465 then 1 else 4)
  {
    var port := cfg["smtp_port"].i;
    ok := true;
    assert plan[..0] == [];
    if port == 465 {
      ok := Step(server, ok, Connect(true, cfg["smtp_server"], port, 30), plan, 0);
    } else {
      assert plan[0] == Connect(false, cfg["smtp_server"], port, 30) && plan[1] == Ehlo;
      assert plan[2] == StartTls && plan[3] == Ehlo;
      ok := Step(server, ok, Connect(false, cfg["smtp_server"], port, 30), plan, 0);
      ok := Step(server, ok, Ehlo, plan, 1);
      ok := Step(server, ok, StartTls, plan, 2);
      ok := Step(server, ok, Ehlo, plan, 3);
    }
  }

  /** The `try` block of send_email on a loaded configuration, abandoned at the first call that raises (the `except` clauses only log). */
  method Deliver(cfg: map<string, Json>, subject: string, body: string, failsAt: nat) returns (sent: bool, calls: seq<Call>)
    requires Loaded(cfg)
    ensures var plan := Plan(cfg, subject, body);
      calls == plan[..Min(|plan|, failsAt + 1)] && (sent <==> failsAt >= |plan|)
  {
    ghost var plan := Plan(cfg, subject, body);
    var msg := Message(subject, cfg["smtp_username"], cfg["target_email"], body);
    var login := Login(cfg["smtp_username"], cfg["smtp_password"]);
    var server := new SmtpSession(failsAt);
    var ok := Open(server, cfg, plan);
    var n := |plan|;
    assert plan[n - 3] == login && plan[n - 2] == SendMessage(msg) && plan[n - 1] == Quit;
    ok := Step(server, ok, login, plan, n - 3);
    ok := Step(server, ok, SendMessage(msg), plan, n - 2);
    ok := Step(server, ok, Quit, plan, n - 1);
    assert ok ==> server.calls == plan[..n] == plan;
    return ok, server.calls;
  }

  /** How send_email ends: it returns True or False, or the ValueError of a header assignment escapes it. */
  datatype Outcome = Returned(sent: bool) | RaisedValueError

  /**
   * send_email(subject, body): nothing is attempted without a valid
   * configuration or with a refused header; otherwise the `try` block runs.
   */
  method SendEmail(file: ConfigFile, subject: string, body: string, failsAt: nat) returns (outcome: Outcome, calls: seq<Call>)
    ensures calls == Transcript(file, subject, body, failsAt)
    ensures outcome.RaisedValueError? <==> RaisesValueError(file, subject)
    ensures outcome.Returned? ==> outcome.sent == Delivered(file, subject, body, failsAt)
  {
    var config := LoadConfig(file);
    if config.None? {
      return Returned(false), [];
    }
    LoadConfigLoaded(file);
    if HeadersRaise(config.value, subject) {
      return RaisedValueError, [];
    }
    var sent;
    sent, calls := Deliver(config.value, subject, body, failsAt);
    outcome := Returned(sent);
  }

  const TestSubject: string := "Test Notification from Pi Offloader"

  /** The body of the test email; `now` is str(datetime.datetime.now()). */
  function TestBody(now: string): string
  {
    "This is a test email sent from send_notification.py at " + now + "."
  }

  /** The subject and body the script sends for its argv. */
  function Arguments(argv: seq<string>, now: string): (r: (string, string))
    ensures |argv| >= 3 ==> r.0 == argv[1] && r.1 == Join('\n', argv[2..])
    ensures |argv| < 3 ==> r == (TestSubject, TestBody(now))
  {
    if |argv| >= 3 then (argv[1], Join('\n', argv[2..])) else (TestSubject, TestBody(now))
  }

  /** The body arguments come back apart when the body is split on its newlines, unless one holds a newline itself. */
  lemma BodyKeepsArguments(argv: seq<string>, now: string)
    requires |argv| >= 3
    requires forall k :: 2 <= k < |argv| ==> '\n' !in argv[k]
    ensures Split(Arguments(argv, now).1, '\n') == argv[2..]
  {
    var parts := argv[2..];
    assert forall k :: 0 <= k < |parts| ==> parts[k] == argv[k + 2];
    SplitJoin('\n', parts);
  }

  /**
   * The script's main block: the subject and body from argv, or the test
   * email; exit status 1 when sending fails or a ValueError escapes (the
   * interpreter's status for an uncaught exception), and 0 otherwise.
   */
  method RunScript(argv: seq<string>, now: string, file: ConfigFile, failsAt: nat) returns (exitCode: int, calls: seq<Call>)
    ensures var (subject, body) := Arguments(argv, now);
      && calls == Transcript(file, subject, body, failsAt)
      && (exitCode == 0 <==> Delivered(file, subject, body, failsAt))
      && (exitCode == 1 <==> !Delivered(file, subject, body, failsAt))
      && (RaisesValueError(file, subject) ==> calls == [] && exitCode == 1)
  {
    var args := Arguments(argv, now);
    var outcome;
    outcome, calls := SendEmail(file, args.0, args.1, failsAt);
    exitCode := if outcome == Returned(true) then 0 else 1;
  }
}
