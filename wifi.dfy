/**
 * The /wifi route of app.py (app.py:286-339): the POST form check, the
 * network block appended to wpa_supplicant.conf, the reading of the
 * `wpa_cli reconfigure` output and the outcome notifications, and on GET the
 * ESSID names collected from `iwlist wlan0 scan` output.
 */
module Wifi {

  import opened Options
  import opened Text
  import opened JsonValue
  import opened Order
  import opened Bus
  import opened Process

  /** `form.get('ssid') or form.get('custom_ssid')`: the list choice, or the typed name when none was chosen. */
  function SsidOf(form: map<string, string>): (r: Option<string>)
    ensures !Blank(Lookup(form, "ssid")) ==> r == Lookup(form, "ssid")
    ensures Blank(Lookup(form, "ssid")) ==> r == Lookup(form, "custom_ssid")
  {
    if !Blank(Lookup(form, "ssid")) then Lookup(form, "ssid") else Lookup(form, "custom_ssid")
  }

  /** The characters the route refuses in either field: a double quote, a backslash, a newline. */
  predicate HasForbidden(s: string)
  {
    '"' in s || '\\' in s || '\n' in s
  }

  /** The submitted form, refused for a reason or accepted as a network. */
  datatype Entry = MissingField | BadCharacters | Network(ssid: string, psk: string)

  /** The two checks of the POST branch, in the order the route makes them. */
  function CheckForm(form: map<string, string>): (e: Entry)
    ensures e == MissingField <==> Blank(SsidOf(form)) || Blank(Lookup(form, "psk"))
    ensures e == BadCharacters <==>
              !Blank(SsidOf(form)) && !Blank(Lookup(form, "psk")) && HasForbidden(SsidOf(form).value + form["psk"])
    ensures e.Network? ==>
              && Some(e.ssid) == SsidOf(form) && e.ssid != ""
              && Some(e.psk) == Lookup(form, "psk") && e.psk != ""
              && !HasForbidden(e.ssid) && !HasForbidden(e.psk)
  {
    var ssid := SsidOf(form);
    var psk := Lookup(form, "psk");
    if Blank(ssid) || Blank(psk) then MissingField
    else if HasForbidden(ssid.value + psk.value) then BadCharacters
    else
      assert forall c :: c in ssid.value ==> c in ssid.value + psk.value;
      assert forall c :: c in psk.value ==> c in ssid.value + psk.value;
      Network(ssid.value, psk.value)
  }

  const Head: string := "\nnetwork={\n\tssid="
  const Middle: string := "\n\tpsk="
  const Tail: string := "\n\tkey_mgmt=WPA-PSK\n}\n"

  /** The text appended to wpa_supplicant.conf for one network. */
  function NetworkBlock(ssid: string, psk: string): string
  {
    Head + "\"" + ssid + "\"" + Middle + "\"" + psk + "\"" + Tail
  }

  /** The block is the five pieces joined by double quotes. */
  lemma NetworkBlockIsJoin(ssid: string, psk: string)
    ensures NetworkBlock(ssid, psk) == Join('"', [Head, ssid, Middle, psk, Tail])
  {
    var ps := [Head, ssid, Middle, psk, Tail];
    assert ps[1..] == [ssid, Middle, psk, Tail];
    assert ps[1..][1..] == [Middle, psk, Tail];
    assert ps[1..][1..][1..] == [psk, Tail];
    assert ps[1..][1..][1..][1..] == [Tail];
    assert Join('"', [Tail]) == Tail;
    assert Join('"', [psk, Tail]) == psk + "\"" + Tail;
    assert Join('"', [Middle, psk, Tail]) == Middle + "\"" + psk + "\"" + Tail;
    assert Join('"', [ssid, Middle, psk, Tail]) == ssid + "\"" + Middle + "\"" + psk + "\"" + Tail;
  }

  /**
   * With no double quote in either value, the values cannot break out of
   * their quotes: cutting the block at its double quotes gives back exactly
   * the fixed text, the SSID and the passphrase.
   */
  lemma NetworkBlockQuotesFields(ssid: string, psk: string)
    requires '"' !in ssid && '"' !in psk
    ensures Split(NetworkBlock(ssid, psk), '"') == [Head, ssid, Middle, psk, Tail]
  {
    NetworkBlockIsJoin(ssid, psk);
    var ps := [Head, ssid, Middle, psk, Tail];
    assert '"' !in Head && '"' !in Middle && '"' !in Tail;
    assert forall k :: 0 <= k < |ps| ==> '"' !in ps[k];
    SplitJoin('"', ps);
  }

  /** wpa_cli's answer counts as success when it says OK, or when it says neither FAIL nor ERROR. */
  predicate WpaAccepted(stdout: string)
  {
    Contains(stdout, "OK") || (!Contains(stdout, "FAIL") && !Contains(stdout, "ERROR"))
  }

  /**
   * The exceptions the append to the configuration file can raise: it runs
   * no subprocess, so only an OSError reaches the handlers, caught as
   * FileNotFoundError, PermissionError or the generic Exception. The first
   * two come from open(path, 'a'), before anything is written; any other
   * OSError (a full disk, an I/O error) may come from the write or from the
   * flush on closing, once `kept` characters of the block reached the file.
   */
  datatype WriteError = NoSuchFile(detail: string) | WriteDenied(detail: string) | OtherOSError(detail: string, kept: nat)

  /** How much of the block the failed append left in the file: nothing when open raised. */
  function Reached(e: WriteError): (n: nat)
    ensures !e.OtherOSError? ==> n == 0
  {
    if e.OtherOSError? then e.kept else 0
  }

  /** The handler a write error lands in. */
  function Caught(e: WriteError): (f: Failure)
    ensures !f.NonZeroExit? && !f.TimedOut?
  {
    match e
    case NoSuchFile(d) => CommandNotFound(d)
    case WriteDenied(d) => PermissionDenied(d)
    case OtherOSError(d, _) => Unexpected(d)
  }

  /** What happened after the form was accepted: the append to the file failed, or it succeeded and wpa_cli ran. */
  datatype Attempt = WriteFailed(error: WriteError) | Reconfigured(run: Run)

  /** The route's outcome: what it flashes, what it publishes, and the configuration file afterwards. */
  datatype PostResult = PostResult(flash: Flash, events: seq<Event>, conf: string)

  const ConfPath: string := "/etc/wpa_supplicant/wpa_supplicant.conf"

  /** The handling of one raised exception; `conf` is the file as it stands when the exception is raised. */
  function FailureResult(f: Failure, conf: string): (r: PostResult)
    ensures |r.events| == 1 && r.flash.category == "error" && r.events[0].kind == JStr("error")
    ensures r.conf == conf
    ensures f.NonZeroExit? ==> r.flash.message == "Error running wpa_cli: " + f.reason + ". Check sudo permissions."
  {
    match f
    case CommandNotFound(e) =>
      PostResult(Flash("Error: Command/file not found (" + e + ").", "error"),
                 [Note("WiFi Config Error: Command not found " + e, "error")], conf)
    case PermissionDenied(_) =>
      PostResult(Flash("Error: Permission denied writing " + ConfPath + " or running sudo.", "error"),
                 [Note("WiFi Config Error: Permission Denied", "error")], conf)
    case NonZeroExit(reason, _) =>
      PostResult(Flash("Error running wpa_cli: " + reason + ". Check sudo permissions.", "error"),
                 [Note("WiFi Config Error: wpa_cli failed", "error")], conf)
    case TimedOut =>
      PostResult(Flash("wpa_cli command timed out.", "error"),
                 [Note("WiFi Config Error: wpa_cli timed out", "error")], conf)
    case Unexpected(e) =>
      PostResult(Flash("An unexpected error occurred: " + e, "error"),
                 [Note("Error configuring Wi-Fi: " + e, "error")], conf)
  }

  /**
   * POST /wifi on configuration text `conf`. A refused form writes nothing and
   * publishes nothing; an accepted one publishes exactly one event, appends the
   * network block (only the part that reached the file when the append
   * failed), and reports success exactly when wpa_cli ran and its output
   * reads as accepted.
   */
  function WifiPost(form: map<string, string>, conf: string, attempt: Attempt): (r: PostResult)
    ensures !CheckForm(form).Network? ==> r.events == [] && r.conf == conf && r.flash.category == "error"
    ensures CheckForm(form).Network? ==> |r.events| == 1
    ensures CheckForm(form).Network? ==>
              r.conf == conf + if attempt.WriteFailed? then Prefix(NetworkBlock(CheckForm(form).ssid, CheckForm(form).psk), Reached(attempt.error))
                               else NetworkBlock(CheckForm(form).ssid, CheckForm(form).psk)
    ensures r.flash.category == "success" <==>
              CheckForm(form).Network? && attempt.Reconfigured? && attempt.run.Completed? && WpaAccepted(attempt.run.stdout)
  {
    match CheckForm(form)
    case MissingField => PostResult(Flash("SSID and Password are required.", "error"), [], conf)
    case BadCharacters => PostResult(Flash("Invalid characters detected in SSID or Password.", "error"), [], conf)
    case Network(ssid, psk) =>
      match attempt
      case WriteFailed(e) => FailureResult(Caught(e), conf + Prefix(NetworkBlock(ssid, psk), Reached(e)))
      case Reconfigured(run) =>
        var written := conf + NetworkBlock(ssid, psk);
        match run
        case Raised(f) => FailureResult(f, written)
        case Completed(out) =>
          if WpaAccepted(out) then
            PostResult(Flash("Wi-Fi network '" + ssid + "' added. System is attempting to connect.", "success"),
                       [Note("Wi-Fi network '" + ssid + "' added. Attempting connection.", "success")], written)
          else
            PostResult(Flash("wpa_cli command run, maybe OK? Output: " + out, "warning"),
                       [Note("Wi-Fi cmd for '" + ssid + "' output: " + out, "warning")], written)
  }

  /** A name in the configuration is the one submitted: the appended block quotes exactly the accepted SSID and passphrase. */
  lemma AppendedBlockHoldsSubmission(form: map<string, string>, conf: string, run: Run)
    requires CheckForm(form).Network?
    ensures var r := WifiPost(form, conf, Reconfigured(run));
      var e := CheckForm(form);
      r.conf[..|conf|] == conf &&
      Split(r.conf[|conf|..], '"') == [Head, e.ssid, Middle, e.psk, Tail]
  {
    var e := CheckForm(form);
    var r := WifiPost(form, conf, Reconfigured(run));
    assert r.conf[|conf|..] == NetworkBlock(e.ssid, e.psk);
    NetworkBlockQuotesFields(e.ssid, e.psk);
  }

  // ----- GET: the ESSIDs of a scan -----

  /**
   * The name one line of scan output contributes: the text between the first
   * two double quotes of the stripped line, when the line mentions "ESSID:",
   * has such a quoted part, and the name is neither empty nor the literal
   * `\x00` iwlist prints for hidden networks.
   */
  function Candidate(line: string): Option<string>
  {
    var t := Strip(line);
    if !Contains(t, "ESSID:") then None
    else
      var parts := Split(t, '"');
      if |parts| < 2 || parts[1] == "" || parts[1] == "\\x00" then None
      else Some(parts[1])
  }

  /** Some line among lines[..n] contributes the name x. */
  ghost predicate Offered(lines: seq<string>, n: nat, x: string)
    requires n <= |lines|
  {
    exists i :: 0 <= i < n && Candidate(lines[i]) == Some(x)
  }

  ghost predicate Distinct(s: seq<string>)
  {
    forall i, j :: 0 <= i < j < |s| ==> s[i] != s[j]
  }

  /** The loop of app.py:327-333 over stdout.splitlines(): every offered name, each once. */
  method ScanSsids(lines: seq<string>) returns (ssids: seq<string>)
    ensures Distinct(ssids)
    ensures forall x :: x in ssids <==> Offered(lines, |lines|, x)
  {
    ssids := [];
    var i := 0;
    while i < |lines|
      invariant 0 <= i <= |lines|
      invariant Distinct(ssids)
      invariant forall x :: x in ssids <==> Offered(lines, i, x)
    {
      var c := Candidate(lines[i]);
      if c.Some? && c.value !in ssids {
        ssids := ssids + [c.value];
      }
      forall x
        ensures Offered(lines, i + 1, x) <==> Offered(lines, i, x) || Candidate(lines[i]) == Some(x)
      {
        if Offered(lines, i + 1, x) && !Offered(lines, i, x) {
          var k :| 0 <= k < i + 1 && Candidate(lines[k]) == Some(x);
          assert k == i;
        }
      }
      i := i + 1;
    }
  }

  /** The outcome of `iwlist wlan0 scan` (run without check=True): its exit status and output, or an exception. */
  datatype Scan = Scanned(returncode: int, stdout: string) | ScanRaised(failure: Failure)

  /**
   * GET /wifi: the names offered by a successful scan, each once and in
   * ascending order (`sorted(list(set(ssids)))`); nothing when the scan failed.
   */
  method WifiListing(scan: Scan) returns (listing: seq<string>)
    ensures StrictlySorted(listing)
    ensures scan.Scanned? && scan.returncode == 0 ==>
              forall x :: x in listing <==> Offered(SplitLines(scan.stdout), |SplitLines(scan.stdout)|, x)
    ensures !(scan.Scanned? && scan.returncode == 0) ==> listing == []
  {
    listing := [];
    if scan.Scanned? && scan.returncode == 0 {
      var ssids := ScanSsids(SplitLines(scan.stdout));
      listing := SortedSet(ssids);
    }
  }

  /** The listing does not depend on how often or in what order the scan reports a name. */
  lemma ListingIsCanonical(a: seq<string>, b: seq<string>)
    requires forall x :: x in a <==> x in b
    ensures SortedSet(a) == SortedSet(b)
  {
    SortedListingUnique(SortedSet(a), SortedSet(b));
  }

  /** An ESSID line of a scan, indented as iwlist indents it, contributes its quoted name; a hidden network's does not. */
  lemma EssidLineOffersName(pad: string, name: string)
    requires forall k :: 0 <= k < |pad| ==> IsSpace(pad[k])
    requires '"' !in name
    ensures Candidate(pad + EssidLine(name)) == if name == "" || name == "\\x00" then None else Some(name)
  {
    var line := EssidLine(name);
    TrimStartPadding(pad, line);
    StripUnchanged(line);
    assert StartsWith(line, "ESSID:");
    EssidSplit(name);
  }

  /** How iwlist reports a network name, the indentation in front of it aside. */
  function EssidLine(name: string): string
  {
    "ESSID:" + "\"" + (name + "\"")
  }

  lemma EssidSplit(name: string)
    requires '"' !in name
    ensures Split(EssidLine(name), '"') == ["ESSID:", name, ""]
  {
    var rest := name + "\"";
    assert '"' !in "ESSID:";
    SplitAt("ESSID:", '"', rest);
    assert rest == name + "\"" + "";
    SplitAt(name, '"', "");
    SplitNone("", '"');
  }
}
