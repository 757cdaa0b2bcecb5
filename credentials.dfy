/**
 * The credentials route of app.py (app.py:459-502): validation of the
 * submitted form, the line-by-line rewrite of the `.env` file, and the
 * process state the route updates on success.
 */
module Credentials {

  import opened Options
  import opened Text
  import opened JsonValue
  import opened Auth
  import opened Bus

  /** request.form.get(key, default) */
  function FormGet(form: map<string, string>, key: string, default: string): string
  {
    if key in form then form[key] else default
  }

  /** Why a submitted form is refused, or the pair it asks for. */
  datatype Verdict = EmptyField | StaleCredentials | Accepted(user: string, pass: string)

  /**
   * The checks of the POST branch, in order: the stripped new username and
   * the new password must be non-empty; then, when an admin exists, the
   * submitted old pair must equal the stored pair exactly (a missing field
   * never matches).
   */
  function ValidateUpdate(env: map<string, string>, form: map<string, string>): (v: Verdict)
    ensures v == EmptyField <==>
              Strip(FormGet(form, "new_username", "")) == "" || FormGet(form, "new_password", "") == ""
    ensures v == StaleCredentials <==>
              v != EmptyField && Configured(env) &&
              (Lookup(form, "old_username") != Lookup(env, UserKey) || Lookup(form, "old_password") != Lookup(env, PassKey))
    ensures v.Accepted? ==>
              v.user == Strip(FormGet(form, "new_username", "")) && v.user != "" &&
              v.pass == FormGet(form, "new_password", "") && v.pass != ""
  {
    var newUser := Strip(FormGet(form, "new_username", ""));
    var newPass := FormGet(form, "new_password", "");
    if newUser == "" || newPass == "" then EmptyField
    else if Configured(env) &&
            (Lookup(form, "old_username") != Lookup(env, UserKey) || Lookup(form, "old_password") != Lookup(env, PassKey))
    then StaleCredentials
    else Accepted(newUser, newPass)
  }

  const UserPrefix: string := "ADMIN_USERNAME="
  const PassPrefix: string := "ADMIN_PASSWORD="

  function UserLine(u: string): string { UserPrefix + u + "\n" }
  function PassLine(p: string): string { PassPrefix + p + "\n" }

  predicate IsUserLine(line: string) { StartsWith(Strip(line), UserPrefix) }
  predicate IsPassLine(line: string) { StartsWith(Strip(line), PassPrefix) }

  predicate HasUserLine(lines: seq<string>) { exists i {:trigger IsUserLine(lines[i])} :: 0 <= i < |lines| && IsUserLine(lines[i]) }
  predicate HasPassLine(lines: seq<string>) { exists i {:trigger IsPassLine(lines[i])} :: 0 <= i < |lines| && IsPassLine(lines[i]) }

  /** The treatment of one line inside the loop: username lines first, then password lines, others verbatim. */
  function ReplaceLine(line: string, u: string, p: string): string
  {
    if IsUserLine(line) then UserLine(u)
    else if IsPassLine(line) then PassLine(p)
    else line
  }

  /** The loop over the lines, line for line. */
  function ReplaceAll(lines: seq<string>, u: string, p: string): (r: seq<string>)
    ensures |r| == |lines|
    ensures forall i :: 0 <= i < |lines| ==> r[i] == ReplaceLine(lines[i], u, p)
  {
    if lines == [] then [] else [ReplaceLine(lines[0], u, p)] + ReplaceAll(lines[1..], u, p)
  }

  /** The file's new lines as the code writes them: replaced in place, missing keys appended, username first. */
  function Rewritten(lines: seq<string>, u: string, p: string): seq<string>
  {
    ReplaceAll(lines, u, p) + Appended(lines, u, p)
  }

  /** The lines written after the loop, for the keys it did not find. */
  function Appended(lines: seq<string>, u: string, p: string): seq<string>
  {
    (if HasUserLine(lines) then [] else [UserLine(u)]) + (if HasPassLine(lines) then [] else [PassLine(p)])
  }

  lemma ReplaceAllSnoc(lines: seq<string>, x: string, u: string, p: string)
    ensures ReplaceAll(lines + [x], u, p) == ReplaceAll(lines, u, p) + [ReplaceLine(x, u, p)]
  {
    var a := ReplaceAll(lines + [x], u, p);
    var b := ReplaceAll(lines, u, p) + [ReplaceLine(x, u, p)];
    assert forall i :: 0 <= i < |lines| ==> (lines + [x])[i] == lines[i];
    assert |a| == |b|;
    forall i | 0 <= i < |a|
      ensures a[i] == b[i]
    {
      if i < |lines| {
        assert (lines + [x])[i] == lines[i];
      }
    }
  }

  lemma HasLinesSnoc(lines: seq<string>, x: string)
    ensures HasUserLine(lines + [x]) <==> HasUserLine(lines) || IsUserLine(x)
    ensures HasPassLine(lines + [x]) <==> HasPassLine(lines) || IsPassLine(x)
  {
    var l := lines + [x];
    assert l[|lines|] == x;
    if HasUserLine(lines) {
      var k :| 0 <= k < |lines| && IsUserLine(lines[k]);
      assert l[k] == lines[k];
    }
    if HasUserLine(l) {
      var k :| 0 <= k < |l| && IsUserLine(l[k]);
      if k < |lines| {
        assert l[k] == lines[k];
      }
    }
    if HasPassLine(lines) {
      var k :| 0 <= k < |lines| && IsPassLine(lines[k]);
      assert l[k] == lines[k];
    }
    if HasPassLine(l) {
      var k :| 0 <= k < |l| && IsPassLine(l[k]);
      if k < |lines| {
        assert l[k] == lines[k];
      }
    }
  }

  /** The rewrite loop of app.py:482-490 with its found_user / found_pass flags. */
  method RewriteEnvLines(envLines: seq<string>, newUser: string, newPass: string) returns (updated: seq<string>)
    ensures updated == Rewritten(envLines, newUser, newPass)
  {
    updated := [];
    var foundUser, foundPass := false, false;
    var i := 0;
    while i < |envLines|
      invariant 0 <= i <= |envLines|
      invariant updated == ReplaceAll(envLines[..i], newUser, newPass)
      invariant foundUser == HasUserLine(envLines[..i])
      invariant foundPass == HasPassLine(envLines[..i])
    {
      var line := envLines[i];
      assert envLines[..i + 1] == envLines[..i] + [line];
      ReplaceAllSnoc(envLines[..i], line, newUser, newPass);
      HasLinesSnoc(envLines[..i], line);
      var cleanLine := Strip(line);
      if StartsWith(cleanLine, UserPrefix) {
        updated := updated + [UserLine(newUser)];
        foundUser := true;
      } else if StartsWith(cleanLine, PassPrefix) {
        updated := updated + [PassLine(newPass)];
        foundPass := true;
      } else {
        updated := updated + [line];
      }
      i := i + 1;
    }
    assert envLines[..i] == envLines;
    if !foundUser {
      updated := updated + [UserLine(newUser)];
    }
    if !foundPass {
      updated := updated + [PassLine(newPass)];
    }
  }

  lemma UserLineIsUserLine(u: string)
    ensures IsUserLine(UserLine(u)) && !IsPassLine(UserLine(u))
  {
    assert UserLine(u) == UserPrefix + (u + "\n");
    StripKeepsPrefix(UserPrefix, u + "\n");
    StartsWithBoth(Strip(UserLine(u)), UserPrefix, PassPrefix);
  }

  lemma PassLineIsPassLine(p: string)
    ensures IsPassLine(PassLine(p)) && !IsUserLine(PassLine(p))
  {
    assert PassLine(p) == PassPrefix + (p + "\n");
    StripKeepsPrefix(PassPrefix, p + "\n");
    StartsWithBoth(Strip(PassLine(p)), UserPrefix, PassPrefix);
  }

  /**
   * What the rewrite promises: the file keeps its other lines at their places,
   * gains one line per missing key, and afterwards every username line is the
   * new username and every password line the new password, with at least one
   * of each.
   */
  lemma RewriteSetsBothKeys(lines: seq<string>, u: string, p: string)
    ensures var r := Rewritten(lines, u, p);
      && |r| == |lines| + (if HasUserLine(lines) then 0 else 1) + (if HasPassLine(lines) then 0 else 1)
      && (forall i :: 0 <= i < |lines| && !IsUserLine(lines[i]) && !IsPassLine(lines[i]) ==> r[i] == lines[i])
      && (forall i :: 0 <= i < |lines| && IsUserLine(lines[i]) ==> r[i] == UserLine(u))
      && (forall i :: 0 <= i < |lines| && IsPassLine(lines[i]) ==> r[i] == PassLine(p))
      && r[|lines|..] == Appended(lines, u, p)
      && (forall i :: 0 <= i < |r| && IsUserLine(r[i]) ==> r[i] == UserLine(u))
      && (forall i :: 0 <= i < |r| && IsPassLine(r[i]) ==> r[i] == PassLine(p))
      && HasUserLine(r) && HasPassLine(r)
  {
    RewrittenInPlace(lines, u, p);
    RewrittenKeyLines(lines, u, p);
    RewrittenHasKeys(lines, u, p);
  }

  /** Where the rewrite puts things: each old line in its place, replaced when it is a key line, then the appended keys. */
  lemma RewrittenInPlace(lines: seq<string>, u: string, p: string)
    ensures var r := Rewritten(lines, u, p);
      && (forall i :: 0 <= i < |lines| && IsUserLine(lines[i]) ==> r[i] == UserLine(u))
      && (forall i :: 0 <= i < |lines| && IsPassLine(lines[i]) ==> r[i] == PassLine(p))
      && r[|lines|..] == Appended(lines, u, p)
  {
    var r := Rewritten(lines, u, p);
    forall i | 0 <= i < |lines| && IsPassLine(lines[i])
      ensures r[i] == PassLine(p)
    {
      KeyLinesDisjoint(lines[i]);
      assert r[i] == ReplaceLine(lines[i], u, p);
    }
    assert r[|lines|..] == Appended(lines, u, p);
  }

  /** Every key line of the rewrite carries the new value. */
  lemma RewrittenKeyLines(lines: seq<string>, u: string, p: string)
    ensures var r := Rewritten(lines, u, p);
      && (forall i :: 0 <= i < |r| && IsUserLine(r[i]) ==> r[i] == UserLine(u))
      && (forall i :: 0 <= i < |r| && IsPassLine(r[i]) ==> r[i] == PassLine(p))
  {
    var r := Rewritten(lines, u, p);
    var tail := Appended(lines, u, p);
    UserLineIsUserLine(u);
    PassLineIsPassLine(p);
    forall i | 0 <= i < |r|
      ensures IsUserLine(r[i]) ==> r[i] == UserLine(u)
      ensures IsPassLine(r[i]) ==> r[i] == PassLine(p)
    {
      if i < |lines| {
        assert r[i] == ReplaceLine(lines[i], u, p);
      } else {
        assert r[i] == tail[i - |lines|];
      }
    }
  }

  /** The rewrite holds a username line and a password line. */
  lemma RewrittenHasKeys(lines: seq<string>, u: string, p: string)
    ensures HasUserLine(Rewritten(lines, u, p)) && HasPassLine(Rewritten(lines, u, p))
  {
    var r := Rewritten(lines, u, p);
    var tail := Appended(lines, u, p);
    RewrittenInPlace(lines, u, p);
    UserLineIsUserLine(u);
    PassLineIsPassLine(p);
    if HasUserLine(lines) {
      var k :| 0 <= k < |lines| && IsUserLine(lines[k]);
      assert IsUserLine(r[k]);
    } else {
      assert tail[0] == UserLine(u);
      assert r[|lines|] == tail[0];
      assert IsUserLine(r[|lines|]);
    }
    if HasPassLine(lines) {
      var k :| 0 <= k < |lines| && IsPassLine(lines[k]);
      assert IsPassLine(r[k]);
    } else {
      assert tail[|tail| - 1] == PassLine(p);
      assert r[|r| - 1] == tail[|tail| - 1];
      assert IsPassLine(r[|r| - 1]);
    }
  }

  /** No line is both a username line and a password line. */
  lemma KeyLinesDisjoint(line: string)
    ensures !(IsUserLine(line) && IsPassLine(line))
  {
    StartsWithBoth(Strip(line), UserPrefix, PassPrefix);
  }

  /** Submitting the same pair twice leaves the file as the first submission wrote it. */
  lemma RewriteIdempotent(lines: seq<string>, u: string, p: string)
    ensures Rewritten(Rewritten(lines, u, p), u, p) == Rewritten(lines, u, p)
  {
    var r := Rewritten(lines, u, p);
    RewriteSetsBothKeys(lines, u, p);
    UserLineIsUserLine(u);
    PassLineIsPassLine(p);
    var rr := ReplaceAll(r, u, p);
    forall i | 0 <= i < |r|
      ensures rr[i] == r[i]
    {
      if IsUserLine(r[i]) {
        assert rr[i] == UserLine(u);
      } else if IsPassLine(r[i]) {
        assert rr[i] == PassLine(p);
      }
    }
    assert rr == r;
  }

  // ----- The appended lines and a last line without its newline -----

  /** A line readlines can return at the end of a file: not empty, no '\r', a '\n' only at its end if at all. */
  predicate LastLine(l: string)
  {
    l != [] && '\r' !in l && '\n' !in l[..|l| - 1]
  }

  /** A line readlines can return anywhere: no '\r' and exactly one '\n', at its end. */
  predicate FullLine(l: string)
  {
    IsLine(l) && '\r' !in l
  }

  /** What readlines can return in text mode: full lines, the last of which may lack its newline. */
  predicate WellFormed(lines: seq<string>)
  {
    forall i :: 0 <= i < |lines| ==> if i < |lines| - 1 then FullLine(lines[i]) else LastLine(lines[i])
  }

  predicate AllFull(lines: seq<string>)
  {
    forall i :: 0 <= i < |lines| ==> FullLine(lines[i])
  }

  /** Reading back what was written gives the written lines, when they are lines readlines could have returned. */
  lemma {:induction false} ReadLinesConcat(lines: seq<string>)
    requires WellFormed(lines)
    ensures ReadLines(Concat(lines)) == lines
  {
    if lines != [] {
      var l := lines[0];
      assert WellFormed(lines[1..]) by {
        forall i | 0 <= i < |lines[1..]|
          ensures lines[1..][i] == lines[i + 1]
        {
        }
      }
      assert LastLine(l);
      ReadLinesConcat(lines[1..]);
      assert Concat(lines) == l + Concat(lines[1..]);
      if l[|l| - 1] == '\n' {
        ReadLinesCons(l, Concat(lines[1..]));
        assert ReadLines(Concat(lines)) == [l] + lines[1..];
      } else {
        assert '\n' !in l by {
          assert l == l[..|l| - 1] + [l[|l| - 1]];
        }
        assert |lines| == 1 && lines[1..] == [];
        assert Concat(lines) == l;
        ReadLinesSingle(l);
        assert ReadLines(Concat(lines)) == [l];
      }
      assert lines == [l] + lines[1..];
    } else {
      assert Concat(lines) == [];
    }
  }

  /** A line starting with anything but whitespace or 'A' is neither key line. */
  lemma NotKeyLine(c: char, rest: string)
    requires c != 'A' && !IsSpace(c)
    ensures !IsUserLine([c] + rest) && !IsPassLine([c] + rest)
  {
    StripKeepsPrefix([c], rest);
    assert Strip([c] + rest)[0] == c;
    assert UserPrefix[0] == 'A' && PassPrefix[0] == 'A';
  }

  /**
   * As written, the appended username line is glued to an unterminated last
   * line: for a file holding one such line (say `FLASK_SECRET_KEY=k` with no
   * newline), reading the file back yields that line fused with the username
   * line and then the password line, and no line is a username line any more,
   * so the key the update was meant to set is lost.
   */
  lemma GluedUsernameIsLost(first: string, u: string, p: string)
    requires first != [] && first[0] != 'A' && !IsSpace(first[0]) && '\n' !in first
    requires NoLineBreak(u) && NoLineBreak(p)
    ensures ReadLines(Concat(Rewritten([first], u, p))) == [first + UserLine(u), PassLine(p)]
    ensures !HasUserLine(ReadLines(Concat(Rewritten([first], u, p))))
  {
    GluedText(first, u, p);
    ReadGluedLines(first, u, p);
    GluedLines(first, u, p);
  }

  /** The line fused with the username line and the password line are read back as two lines. */
  lemma ReadGluedLines(first: string, u: string, p: string)
    requires '\n' !in first && NoLineBreak(u) && NoLineBreak(p)
    ensures ReadLines(first + UserLine(u) + PassLine(p)) == [first + UserLine(u), PassLine(p)]
  {
    KeyLinesAreLines(u, p);
    GlueLine(first, UserLine(u));
    ReadLinesTwo(first + UserLine(u), PassLine(p));
  }

  /** A file of one line that is no key line gains both key lines after it. */
  lemma RewrittenPlainLine(line: string, u: string, p: string)
    requires !IsUserLine(line) && !IsPassLine(line)
    ensures Rewritten([line], u, p) == [line, UserLine(u), PassLine(p)]
  {
    assert !HasUserLine([line]) && !HasPassLine([line]);
    assert ReplaceAll([line], u, p) == [line];
  }

  /** The last line of `lines` with its missing newline added. */
  function Terminated(lines: seq<string>): (r: seq<string>)
    ensures |r| == |lines|
  {
    if lines != [] && lines[|lines| - 1] != [] && lines[|lines| - 1][|lines[|lines| - 1]| - 1] != '\n'
    then lines[..|lines| - 1] + [lines[|lines| - 1] + "\n"]
    else lines
  }

  /** The rewrite as intended: when a key has to be appended, the last line is terminated first. */
  function RewrittenFixed(lines: seq<string>, u: string, p: string): seq<string>
  {
    if HasUserLine(lines) && HasPassLine(lines) then Rewritten(lines, u, p)
    else Rewritten(Terminated(lines), u, p)
  }

  /** Terminating the last line changes neither which lines are key lines nor how the rest of the file is kept. */
  lemma TerminatedKeepsKeys(lines: seq<string>)
    ensures forall i :: 0 <= i < |lines| ==>
              (IsUserLine(Terminated(lines)[i]) <==> IsUserLine(lines[i])) &&
              (IsPassLine(Terminated(lines)[i]) <==> IsPassLine(lines[i]))
    ensures HasUserLine(Terminated(lines)) == HasUserLine(lines)
    ensures HasPassLine(Terminated(lines)) == HasPassLine(lines)
  {
    var t := Terminated(lines);
    if t != lines {
      var init := lines[..|lines| - 1];
      var last := lines[|lines| - 1];
      StripAppendSpace(last, '\n');
      assert last + "\n" == last + ['\n'];
      assert lines == init + [last];
      HasLinesSnoc(init, last);
      HasLinesSnoc(init, last + "\n");
      forall i | 0 <= i < |lines|
        ensures (IsUserLine(t[i]) <==> IsUserLine(lines[i])) && (IsPassLine(t[i]) <==> IsPassLine(lines[i]))
      {
        if i < |lines| - 1 {
          assert t[i] == lines[i];
        }
      }
    }
  }

  /** Every line of a terminated well-formed file ends with its newline. */
  lemma TerminatedAllFull(lines: seq<string>)
    requires WellFormed(lines)
    ensures AllFull(Terminated(lines))
  {
    var t := Terminated(lines);
    if lines != [] {
      var last := lines[|lines| - 1];
      assert LastLine(last);
      if t != lines {
        assert '\n' !in last by {
          assert last == last[..|last| - 1] + [last[|last| - 1]];
        }
        LineOf(last);
        forall i | 0 <= i < |t|
          ensures FullLine(t[i])
        {
          if i < |lines| - 1 {
            assert t[i] == lines[i];
          }
        }
      } else {
        assert IsLine(last);
      }
    }
  }

  predicate NoLineBreak(s: string)
  {
    '\n' !in s && '\r' !in s
  }

  /** With no line break in the values, the key lines are lines readlines returns whole. */
  lemma KeyLinesAreLines(u: string, p: string)
    requires NoLineBreak(u) && NoLineBreak(p)
    ensures IsLine(UserLine(u)) && '\r' !in UserLine(u)
    ensures IsLine(PassLine(p)) && '\r' !in PassLine(p)
  {
    assert NoLineBreak(UserPrefix) && NoLineBreak(PassPrefix);
    LineOf(UserPrefix + u);
    LineOf(PassPrefix + p);
  }

  /** Replacing key lines by key lines keeps a file well formed, and keeps it made of full lines. */
  lemma ReplaceAllKeepsLines(lines: seq<string>, u: string, p: string)
    requires NoLineBreak(u) && NoLineBreak(p)
    ensures WellFormed(lines) ==> WellFormed(ReplaceAll(lines, u, p))
    ensures AllFull(lines) ==> AllFull(ReplaceAll(lines, u, p))
  {
    KeyLinesAreLines(u, p);
    var r := ReplaceAll(lines, u, p);
    assert forall i :: 0 <= i < |r| ==> r[i] == ReplaceLine(lines[i], u, p);
  }

  /**
   * The corrected rewrite keeps its promise: its lines come back unchanged
   * when the written file is read again, and they hold the new username
   * and password lines.
   */
  lemma RewrittenFixedRereads(lines: seq<string>, u: string, p: string)
    requires WellFormed(lines) && NoLineBreak(u) && NoLineBreak(p)
    ensures var r := RewrittenFixed(lines, u, p);
      ReadLines(Concat(r)) == r && HasUserLine(r) && HasPassLine(r)
  {
    RewrittenFixedWellFormed(lines, u, p);
    ReadLinesConcat(RewrittenFixed(lines, u, p));
    if HasUserLine(lines) && HasPassLine(lines) {
      RewriteSetsBothKeys(lines, u, p);
    } else {
      RewriteSetsBothKeys(Terminated(lines), u, p);
    }
  }

  lemma RewrittenFixedWellFormed(lines: seq<string>, u: string, p: string)
    requires WellFormed(lines) && NoLineBreak(u) && NoLineBreak(p)
    ensures WellFormed(RewrittenFixed(lines, u, p))
  {
    if HasUserLine(lines) && HasPassLine(lines) {
      ReplaceAllKeepsLines(lines, u, p);
      assert Appended(lines, u, p) == [];
      assert RewrittenFixed(lines, u, p) == ReplaceAll(lines, u, p);
    } else {
      var t := Terminated(lines);
      TerminatedAllFull(lines);
      ReplaceAllKeepsLines(t, u, p);
      AppendedAllFull(t, u, p);
      AllFullAppend(ReplaceAll(t, u, p), Appended(t, u, p));
      assert RewrittenFixed(lines, u, p) == ReplaceAll(t, u, p) + Appended(t, u, p);
    }
  }

  lemma AppendedAllFull(lines: seq<string>, u: string, p: string)
    requires NoLineBreak(u) && NoLineBreak(p)
    ensures AllFull(Appended(lines, u, p))
  {
    KeyLinesAreLines(u, p);
  }

  lemma AllFullAppend(a: seq<string>, b: seq<string>)
    requires AllFull(a) && AllFull(b)
    ensures AllFull(a + b) && WellFormed(a + b)
  {
    forall i | 0 <= i < |a + b|
      ensures FullLine((a + b)[i])
    {
      if i < |a| {
        assert (a + b)[i] == a[i];
      } else {
        assert (a + b)[i] == b[i - |a|];
      }
    }
  }

  /** The fix only ever adds the last line's missing newline: every other line is where and what Rewritten makes it. */
  lemma FixOnlyTerminatesLastLine(lines: seq<string>, u: string, p: string)
    ensures |RewrittenFixed(lines, u, p)| == |Rewritten(lines, u, p)|
    ensures forall i :: 0 <= i < |Rewritten(lines, u, p)| && i != |lines| - 1 ==>
              RewrittenFixed(lines, u, p)[i] == Rewritten(lines, u, p)[i]
    ensures |lines| > 0 ==>
              RewrittenFixed(lines, u, p)[|lines| - 1] == Rewritten(lines, u, p)[|lines| - 1] ||
              RewrittenFixed(lines, u, p)[|lines| - 1] == Rewritten(lines, u, p)[|lines| - 1] + "\n"
  {
    TerminatedKeepsKeys(lines);
    var t := Terminated(lines);
    var a := Rewritten(lines, u, p);
    var b := RewrittenFixed(lines, u, p);
    if |lines| > 0 && !(HasUserLine(lines) && HasPassLine(lines)) {
      var k := |lines| - 1;
      assert b[k] == ReplaceLine(t[k], u, p);
      assert a[k] == ReplaceLine(lines[k], u, p);
    }
    forall i | 0 <= i < |a| && i != |lines| - 1
      ensures b[i] == a[i]
    {
      if i < |lines| && !(HasUserLine(lines) && HasPassLine(lines)) {
        assert t[i] == lines[i];
        assert b[i] == ReplaceLine(t[i], u, p);
        assert a[i] == ReplaceLine(lines[i], u, p);
      }
    }
  }

  /** Once the environment holds a non-empty pair, that pair authenticates on protected pages and a different pair does not. */
  lemma NewPairAuthenticates(env: map<string, string>, endpoint: Option<string>, u: string, p: string, user: string, pass: string)
    requires Lookup(env, UserKey) == Some(u) && Lookup(env, PassKey) == Some(p)
    requires u != "" && p != ""
    ensures VerifyPassword(env, endpoint, u, p) == User(u)
    ensures (user, pass) != (u, p) ==> VerifyPassword(env, endpoint, user, pass) == Refused
  {
  }

  // ----- load_dotenv(dotenv_path, override=True) after the write -----

  /** A line python-dotenv reads as a binding of the key `prefix` names, as far as the route can tell. */
  predicate Names(line: string, prefix: string)
  {
    StartsWith(Strip(line), prefix)
  }

  /** The value python-dotenv reads from a line naming the key: the text after `key=`, stripped. */
  function ValueOf(line: string, prefix: string): string
    requires Names(line, prefix)
  {
    Strip(Strip(line)[|prefix|..])
  }

  /** The value the reload gives a key: the last line naming it wins; None when no line names it. */
  function DotenvValue(lines: seq<string>, prefix: string): Option<string>
  {
    if lines == [] then None
    else if Names(lines[|lines| - 1], prefix) then Some(ValueOf(lines[|lines| - 1], prefix))
    else DotenvValue(lines[..|lines| - 1], prefix)
  }

  /**
   * The environment after load_dotenv(override=True) of the file `text`: a
   * key some line names takes that line's value, a key no line names keeps
   * the value it had.
   */
  function Reloaded(env: map<string, string>, text: string): map<string, string>
  {
    var lines := ReadLines(text);
    var withUser := match DotenvValue(lines, UserPrefix) case Some(v) => env[UserKey := v] case None => env;
    match DotenvValue(lines, PassPrefix) case Some(v) => withUser[PassKey := v] case None => withUser
  }

  /**
   * Reloading the same file again changes nothing: what load_dotenv sets
   * depends only on the file, so the reloads of the hook and of the
   * credentials route settle on one environment.
   */
  lemma ReloadedSettles(env: map<string, string>, text: string)
    ensures Reloaded(Reloaded(env, text), text) == Reloaded(env, text)
  {
  }

  /** The environment after load_dotenv(override=True) of the file as it stands, when there is one. */
  function Refreshed(env: map<string, string>, dotenv: Option<string>): (r: map<string, string>)
    ensures dotenv.None? ==> r == env
    ensures dotenv.Some? ==> Reloaded(r, dotenv.value) == r
  {
    if dotenv.Some? then ReloadedSettles(env, dotenv.value); Reloaded(env, dotenv.value) else env
  }

  /** The reload finds a key exactly when some line names it. */
  lemma {:induction false} DotenvValueFound(lines: seq<string>, prefix: string)
    ensures DotenvValue(lines, prefix).None? <==> forall i :: 0 <= i < |lines| ==> !Names(lines[i], prefix)
  {
    if lines != [] {
      var n := |lines| - 1;
      var init := lines[..n];
      if !Names(lines[n], prefix) {
        DotenvValueFound(init, prefix);
        assert forall i :: 0 <= i < n ==> lines[i] == init[i];
      }
    }
  }

  /** A value the reload finds is the value of a line naming the key after which no line names it. */
  lemma {:induction false} DotenvValueLast(lines: seq<string>, prefix: string)
    requires DotenvValue(lines, prefix).Some?
    ensures exists i :: 0 <= i < |lines| && Names(lines[i], prefix) &&
              DotenvValue(lines, prefix).value == ValueOf(lines[i], prefix) &&
              forall j :: i < j < |lines| ==> !Names(lines[j], prefix)
  {
    var n := |lines| - 1;
    if Names(lines[n], prefix) {
      assert DotenvValue(lines, prefix).value == ValueOf(lines[n], prefix);
    } else {
      assert DotenvValue(lines, prefix) == DotenvValue(lines[..n], prefix);
      DotenvValueLast(lines[..n], prefix);
      var init := lines[..n];
      var i :| 0 <= i < n && Names(init[i], prefix) && DotenvValue(init, prefix).value == ValueOf(init[i], prefix) &&
               forall j :: i < j < n ==> !Names(init[j], prefix);
      LastNamingExtends(lines, init, prefix, i);
      assert lines[i] == init[i];
    }
  }

  /** The step of DotenvValueLast: a last line that does not name the key keeps line i the last one that does. */
  lemma LastNamingExtends(lines: seq<string>, init: seq<string>, prefix: string, i: nat)
    requires i < |lines| - 1 && init == lines[..|lines| - 1] && !Names(lines[|lines| - 1], prefix)
    requires forall j :: i < j < |init| ==> !Names(init[j], prefix)
    ensures forall j :: i < j < |lines| ==> !Names(lines[j], prefix)
  {
    forall j | i < j < |lines|
      ensures !Names(lines[j], prefix)
    {
      if j < |lines| - 1 {
        assert lines[j] == init[j];
      }
    }
  }

  /** When every line naming the key is the same line, the reload takes that line's value. */
  lemma DotenvValueUniform(lines: seq<string>, prefix: string, line: string)
    requires exists i :: 0 <= i < |lines| && Names(lines[i], prefix)
    requires forall i :: 0 <= i < |lines| && Names(lines[i], prefix) ==> lines[i] == line
    ensures Names(line, prefix) && DotenvValue(lines, prefix) == Some(ValueOf(line, prefix))
  {
    DotenvValueFound(lines, prefix);
    DotenvValueLast(lines, prefix);
  }

  /** A key line as the route writes it gives back its value, stripped. */
  lemma KeyLineValue(prefix: string, v: string)
    requires prefix != [] && !IsSpace(prefix[0]) && !IsSpace(prefix[|prefix| - 1])
    ensures Names(prefix + v + "\n", prefix) && ValueOf(prefix + v + "\n", prefix) == Strip(v)
  {
    var line := prefix + v + "\n";
    assert TrimStart(line) == line;
    assert line[..|line| - 1] == prefix + v;
    TrimEndBehind(prefix, v);
    assert Strip(line) == prefix + TrimEnd(v);
    assert Strip(line)[|prefix|..] == TrimEnd(v);
    StripTrimEnd(v);
  }

  /** A file whose every username line is the same key line reloads that line's value. */
  lemma ReloadedUser(lines: seq<string>, u: string)
    requires HasUserLine(lines)
    requires forall i :: 0 <= i < |lines| && IsUserLine(lines[i]) ==> lines[i] == UserLine(u)
    ensures DotenvValue(lines, UserPrefix) == Some(Strip(u))
  {
    var k :| 0 <= k < |lines| && IsUserLine(lines[k]);
    assert Names(lines[k], UserPrefix);
    forall i | 0 <= i < |lines| && Names(lines[i], UserPrefix)
      ensures lines[i] == UserLine(u)
    {
      assert IsUserLine(lines[i]);
    }
    DotenvValueUniform(lines, UserPrefix, UserLine(u));
    KeyLineValue(UserPrefix, u);
  }

  /** A file whose every password line is the same key line reloads that line's value. */
  lemma ReloadedPass(lines: seq<string>, p: string)
    requires HasPassLine(lines)
    requires forall i :: 0 <= i < |lines| && IsPassLine(lines[i]) ==> lines[i] == PassLine(p)
    ensures DotenvValue(lines, PassPrefix) == Some(Strip(p))
  {
    var k :| 0 <= k < |lines| && IsPassLine(lines[k]);
    assert Names(lines[k], PassPrefix);
    forall i | 0 <= i < |lines| && Names(lines[i], PassPrefix)
      ensures lines[i] == PassLine(p)
    {
      assert IsPassLine(lines[i]);
    }
    DotenvValueUniform(lines, PassPrefix, PassLine(p));
    KeyLineValue(PassPrefix, p);
  }

  /** A file without username line leaves ADMIN_USERNAME as it was. */
  lemma ReloadedNoUser(lines: seq<string>)
    requires !HasUserLine(lines)
    ensures DotenvValue(lines, UserPrefix) == None
  {
    forall i | 0 <= i < |lines|
      ensures !Names(lines[i], UserPrefix)
    {
      assert !IsUserLine(lines[i]);
    }
    DotenvValueFound(lines, UserPrefix);
  }

  /** What the reload does to the pair when the file names the password but not the username. */
  lemma ReloadedPassOnly(env: map<string, string>, text: string, p: string)
    requires DotenvValue(ReadLines(text), UserPrefix) == None
    requires DotenvValue(ReadLines(text), PassPrefix) == Some(Strip(p))
    ensures var e := Reloaded(env, text);
      Lookup(e, UserKey) == Lookup(env, UserKey) && Lookup(e, PassKey) == Some(Strip(p))
  {
  }

  /** What the reload does to the pair when the file names both keys. */
  lemma ReloadedBoth(env: map<string, string>, text: string, u: string, p: string)
    requires DotenvValue(ReadLines(text), UserPrefix) == Some(Strip(u))
    requires DotenvValue(ReadLines(text), PassPrefix) == Some(Strip(p))
    ensures var e := Reloaded(env, text);
      Lookup(e, UserKey) == Some(Strip(u)) && Lookup(e, PassKey) == Some(Strip(p))
  {
  }

  /** The glued file as written: the plain line, then both key lines. */
  lemma GluedText(first: string, u: string, p: string)
    requires first != [] && first[0] != 'A' && !IsSpace(first[0])
    ensures Concat(Rewritten([first], u, p)) == first + UserLine(u) + PassLine(p)
  {
    NotKeyLine(first[0], first[1..]);
    assert first == [first[0]] + first[1..];
    RewrittenPlainLine(first, u, p);
    ConcatThree(first, UserLine(u), PassLine(p));
  }

  /** The glued lines: the first names no key, the second is the password line. */
  lemma GluedLines(first: string, u: string, p: string)
    requires first != [] && first[0] != 'A' && !IsSpace(first[0])
    ensures var lines := [first + UserLine(u), PassLine(p)];
      && !IsUserLine(lines[0]) && !IsPassLine(lines[0])
      && !HasUserLine(lines) && HasPassLine(lines)
  {
    var a := first + UserLine(u);
    var lines := [a, PassLine(p)];
    PassLineIsPassLine(p);
    NotKeyLine(first[0], first[1..] + UserLine(u));
    assert a == [first[0]] + (first[1..] + UserLine(u));
    assert IsPassLine(lines[1]);
  }

  /**
   * As written, the glued username line names no key: the reload leaves
   * ADMIN_USERNAME as it was, so a dashboard in setup mode stays in setup
   * mode, while the password is reloaded.
   */
  lemma GluedReloadKeepsUser(env: map<string, string>, first: string, u: string, p: string)
    requires first != [] && first[0] != 'A' && !IsSpace(first[0]) && '\n' !in first
    requires NoLineBreak(u) && NoLineBreak(p)
    ensures var e := Reloaded(env, Concat(Rewritten([first], u, p)));
      && Lookup(e, UserKey) == Lookup(env, UserKey) && Lookup(e, PassKey) == Some(Strip(p))
      && (UserKey !in env ==> !Configured(e))
  {
    var text := Concat(Rewritten([first], u, p));
    GluedText(first, u, p);
    ReadGluedLines(first, u, p);
    GluedLines(first, u, p);
    var lines := ReadLines(text);
    ReloadedNoUser(lines);
    PassLineIsPassLine(p);
    forall i | 0 <= i < |lines| && IsPassLine(lines[i])
      ensures lines[i] == PassLine(p)
    {
    }
    ReloadedPass(lines, p);
    ReloadedPassOnly(env, text, p);
  }

  /** As written, submitting the pair again appends one more username line to the glued file. */
  lemma GluedResubmitGrows(first: string, u: string, p: string)
    requires first != [] && first[0] != 'A' && !IsSpace(first[0]) && '\n' !in first
    requires NoLineBreak(u) && NoLineBreak(p)
    ensures var once := Concat(Rewritten([first], u, p));
      Concat(Rewritten(ReadLines(once), u, p)) == once + UserLine(u)
  {
    GluedText(first, u, p);
    ReadGluedLines(first, u, p);
    GluedLines(first, u, p);
    var lines := [first + UserLine(u), PassLine(p)];
    assert ReplaceAll(lines, u, p) == lines by {
      PassLineIsPassLine(p);
    }
    assert Rewritten(lines, u, p) == [lines[0], lines[1], UserLine(u)];
    ConcatThree(lines[0], lines[1], UserLine(u));
  }

  /** A file whose lines hold one username line and one password line, however often, reloads that pair. */
  lemma ReloadedRewrite(env: map<string, string>, text: string, u: string, p: string)
    requires HasUserLine(ReadLines(text)) && HasPassLine(ReadLines(text))
    requires forall i :: 0 <= i < |ReadLines(text)| && IsUserLine(ReadLines(text)[i]) ==> ReadLines(text)[i] == UserLine(u)
    requires forall i :: 0 <= i < |ReadLines(text)| && IsPassLine(ReadLines(text)[i]) ==> ReadLines(text)[i] == PassLine(p)
    ensures var e := Reloaded(env, text);
      Lookup(e, UserKey) == Some(Strip(u)) && Lookup(e, PassKey) == Some(Strip(p))
  {
    var lines := ReadLines(text);
    ReloadedUser(lines, u);
    ReloadedPass(lines, p);
    ReloadedBoth(env, text, u, p);
  }

  /** The corrected rewrite reloads the submitted pair: both keys take the new values, stripped as python-dotenv strips them. */
  lemma FixedReloadSetsPair(env: map<string, string>, lines: seq<string>, u: string, p: string)
    requires WellFormed(lines) && NoLineBreak(u) && NoLineBreak(p)
    ensures var e := Reloaded(env, Concat(RewrittenFixed(lines, u, p)));
      Lookup(e, UserKey) == Some(Strip(u)) && Lookup(e, PassKey) == Some(Strip(p))
  {
    var r := RewrittenFixed(lines, u, p);
    RewrittenFixedRereads(lines, u, p);
    var base := if HasUserLine(lines) && HasPassLine(lines) then lines else Terminated(lines);
    assert r == Rewritten(base, u, p);
    RewriteSetsBothKeys(base, u, p);
    ReloadedRewrite(env, Concat(r), u, p);
  }

  /**
   * For a file whose every line ends with its newline, submitting the same
   * pair again leaves the written file as it is.
   */
  lemma RewriteIdempotentFile(lines: seq<string>, u: string, p: string)
    requires AllFull(lines) && NoLineBreak(u) && NoLineBreak(p)
    ensures var once := Concat(Rewritten(lines, u, p));
      Concat(Rewritten(ReadLines(once), u, p)) == once
  {
    ReplaceAllKeepsLines(lines, u, p);
    AppendedAllFull(lines, u, p);
    AllFullAppend(ReplaceAll(lines, u, p), Appended(lines, u, p));
    ReadLinesConcat(Rewritten(lines, u, p));
    RewriteIdempotent(lines, u, p);
  }

  /**
   * The route as written does its job on the files it is meant for: when
   * every line ends with its newline, or the file already names both keys,
   * the reload sets both keys to the submitted values, stripped.
   */
  lemma AsWrittenReloadsPair(env: map<string, string>, lines: seq<string>, u: string, p: string)
    requires AllFull(lines) || (WellFormed(lines) && HasUserLine(lines) && HasPassLine(lines))
    requires NoLineBreak(u) && NoLineBreak(p)
    ensures var e := Reloaded(env, Concat(Rewritten(lines, u, p)));
      Lookup(e, UserKey) == Some(Strip(u)) && Lookup(e, PassKey) == Some(Strip(p))
  {
    if !(HasUserLine(lines) && HasPassLine(lines)) {
      assert forall i :: 0 <= i < |lines| ==> FullLine(lines[i]);
      if lines != [] {
        assert IsLine(lines[|lines| - 1]);
      }
      assert Terminated(lines) == lines;
    }
    assert RewrittenFixed(lines, u, p) == Rewritten(lines, u, p);
    FixedReloadSetsPair(env, lines, u, p);
  }

  /**
   * After the as-written update of such a file, the stored pair is the
   * submission as the reload strips it: the stripped pair authenticates and
   * every other pair is refused, so a password typed with surrounding
   * whitespace no longer logs in as typed, and one made only of whitespace
   * puts the dashboard back into setup mode.
   */
  lemma AsWrittenUpdateAuthenticates(env: map<string, string>, lines: seq<string>, u: string, p: string,
                                     endpoint: Option<string>, user: string, pass: string)
    requires AllFull(lines) || (WellFormed(lines) && HasUserLine(lines) && HasPassLine(lines))
    requires NoLineBreak(u) && NoLineBreak(p)
    ensures var e := Reloaded(env, Concat(Rewritten(lines, u, p)));
      && (Strip(u) != "" && Strip(p) != "" ==> VerifyPassword(e, endpoint, Strip(u), Strip(p)) == User(Strip(u)))
      && (Strip(u) != "" && Strip(p) != "" && (user, pass) != (Strip(u), Strip(p)) ==> VerifyPassword(e, endpoint, user, pass) == Refused)
      && (p != Strip(p) ==> !VerifyPassword(e, endpoint, user, p).User?)
      && (Strip(p) == "" ==> !Configured(e))
  {
    var e := Reloaded(env, Concat(Rewritten(lines, u, p)));
    AsWrittenReloadsPair(env, lines, u, p);
    if Strip(u) != "" && Strip(p) != "" {
      NewPairAuthenticates(e, endpoint, Strip(u), Strip(p), user, pass);
      NewPairAuthenticates(e, endpoint, Strip(u), Strip(p), user, p);
    }
  }

  /** What the route renders or where it redirects, with its flash message. */
  datatype Page = ShowForm(adminExists: bool, flash: string) | RedirectToIndex(flash: string)

  /**
   * Where the try block of the write stops: open(".env", "w") raising (the
   * file is untouched), writelines or the flush on closing raising once
   * `kept` characters reached the truncated file, load_dotenv raising after
   * the file was written, or no exception at all.
   */
  datatype Fault = NoFault | OpenFailed(reason: string) | WriteFailed(reason: string, kept: nat) | ReloadFailed(reason: string)

  /** The file after the try block: what the write left in place of `before`. */
  function WrittenFile(before: Option<string>, text: string, fault: Fault): (r: Option<string>)
    ensures fault.OpenFailed? ==> r == before
    ensures !fault.OpenFailed? ==> r.Some? && Prefix(text, |r.value|) == r.value
    ensures fault.NoFault? || fault.ReloadFailed? ==> r == Some(text)
  {
    match fault
    case OpenFailed(_) => before
    case WriteFailed(_, kept) => Some(Prefix(text, kept))
    case _ => Some(text)
  }

  /**
   * The process state the route works on: the environment after
   * load_dotenv(override=True), the text of the `.env` file (None when it
   * does not exist) and the module globals ADMIN_USERNAME / ADMIN_PASSWORD.
   */
  class CredentialStore {

    var env: map<string, string>
    var dotenv: Option<string>
    var adminUser: Option<string>
    var adminPass: Option<string>

    constructor (env0: map<string, string>, dotenv0: Option<string>)
      ensures env == env0 && dotenv == dotenv0
      ensures adminUser == Lookup(env0, UserKey) && adminPass == Lookup(env0, PassKey)
    {
      env, dotenv := env0, dotenv0;
      adminUser, adminPass := Lookup(env0, UserKey), Lookup(env0, PassKey);
    }

    /**
     * The environment holds what the `.env` says: reloading the file would
     * change nothing. It holds after every reload, and fails only when a
     * write stopped part-way or the reload after it raised.
     */
    predicate Synced()
      reads this
    {
      dotenv.Some? ==> Reloaded(env, dotenv.value) == env
    }

    /**
     * load_dotenv(dotenv_path, override=True), as the before_request hook
     * and the credentials route run it first: the environment afterwards
     * holds what the file says; the file and the globals are untouched.
     */
    method Refresh()
      modifies this
      ensures env == Refreshed(old(env), old(dotenv))
      ensures dotenv == old(dotenv) && adminUser == old(adminUser) && adminPass == old(adminPass)
      ensures Synced()
    {
      env := Refreshed(env, dotenv);
    }

    /** The lines the route reads: none when the file is missing. */
    function EnvLines(): seq<string>
      reads this
    {
      if dotenv.Some? then ReadLines(dotenv.value) else []
    }

    /**
     * POST /credentials. `fault` says where, if anywhere, the try block
     * raised. A refused form changes nothing; an accepted one writes the
     * rewrite as the code computes it, and then either reloads the file and
     * the globals and publishes a success event, or, when the try block
     * raised, leaves the environment and the globals alone and publishes an
     * error event.
     */
    method PostCredentials(bus: NotificationQueue, form: map<string, string>, fault: Fault) returns (page: Page)
      modifies this, bus
      ensures var e := Refreshed(old(env), old(dotenv));
        match ValidateUpdate(e, form)
        case EmptyField =>
          && page == ShowForm(Configured(e), "New username and password cannot be empty.")
          && env == e && dotenv == old(dotenv) && adminUser == old(adminUser) && adminPass == old(adminPass)
          && bus.items == old(bus.items)
        case StaleCredentials =>
          && page == ShowForm(true, "Current credentials do not match!")
          && env == e && dotenv == old(dotenv) && adminUser == old(adminUser) && adminPass == old(adminPass)
          && bus.items == old(bus.items)
        case Accepted(u, p) =>
          && dotenv == WrittenFile(old(dotenv), Concat(Rewritten(old(EnvLines()), u, p)), fault)
          && if fault.NoFault? then
               && page == RedirectToIndex("Credentials updated. Restart service if login issues persist.")
               && env == Reloaded(e, Concat(Rewritten(old(EnvLines()), u, p)))
               && adminUser == Lookup(env, UserKey) && adminPass == Lookup(env, PassKey)
               && bus.items == old(bus.items) + [Note("Admin credentials updated.", "success")]
             else
               && page == ShowForm(Configured(e), "Error writing to .env file: " + fault.reason)
               && env == e && adminUser == old(adminUser) && adminPass == old(adminPass)
               && bus.items == old(bus.items) + [Note("Error saving credentials.", "error")]
      ensures fault.NoFault? || fault.OpenFailed? || !ValidateUpdate(Refreshed(old(env), old(dotenv)), form).Accepted? ==> Synced()
    {
      Refresh();
      var adminExists := Configured(env);
      var v := ValidateUpdate(env, form);
      match v
      case EmptyField =>
        page := ShowForm(adminExists, "New username and password cannot be empty.");
      case StaleCredentials =>
        page := ShowForm(true, "Current credentials do not match!");
      case Accepted(u, p) =>
        page := Update(bus, u, p, fault);
    }

    /** The accepted branch: the rewrite, the try block, and its flash and event. */
    method Update(bus: NotificationQueue, u: string, p: string, fault: Fault) returns (page: Page)
      modifies this, bus
      ensures dotenv == WrittenFile(old(dotenv), Concat(Rewritten(old(EnvLines()), u, p)), fault)
      ensures fault.NoFault? ==>
                && page == RedirectToIndex("Credentials updated. Restart service if login issues persist.")
                && env == Reloaded(old(env), Concat(Rewritten(old(EnvLines()), u, p)))
                && adminUser == Lookup(env, UserKey) && adminPass == Lookup(env, PassKey)
                && bus.items == old(bus.items) + [Note("Admin credentials updated.", "success")]
      ensures !fault.NoFault? ==>
                && page == ShowForm(Configured(old(env)), "Error writing to .env file: " + fault.reason)
                && env == old(env) && adminUser == old(adminUser) && adminPass == old(adminPass)
                && bus.items == old(bus.items) + [Note("Error saving credentials.", "error")]
      ensures fault.NoFault? ==> Synced()
      ensures fault.OpenFailed? && old(Synced()) ==> Synced()
    {
      var adminExists := Configured(env);
      var updated := RewriteEnvLines(EnvLines(), u, p);
      var raised := Save(Concat(updated), fault);
      if raised {
        page := ShowForm(adminExists, "Error writing to .env file: " + fault.reason);
        bus.Add(JStr("Error saving credentials."), JStr("error"));
      } else {
        page := RedirectToIndex("Credentials updated. Restart service if login issues persist.");
        bus.Add(JStr("Admin credentials updated."), JStr("success"));
      }
    }

    /**
     * The try block: write `text` over the file, reload it into the
     * environment and read the globals back; `raised` when it stopped at `fault`.
     */
    method Save(text: string, fault: Fault) returns (raised: bool)
      modifies this
      ensures raised <==> !fault.NoFault?
      ensures dotenv == WrittenFile(old(dotenv), text, fault)
      ensures !raised ==> env == Reloaded(old(env), text) && adminUser == Lookup(env, UserKey) && adminPass == Lookup(env, PassKey)
      ensures raised ==> env == old(env) && adminUser == old(adminUser) && adminPass == old(adminPass)
      ensures !raised ==> Synced()
    {
      dotenv := WrittenFile(dotenv, text, fault);
      raised := !fault.NoFault?;
      if !raised {
        ReloadedSettles(env, text);
        env := Reloaded(env, text);
        adminUser, adminPass := Lookup(env, UserKey), Lookup(env, PassKey);
      }
    }

    /**
     * The write as intended: the corrected rewrite, after which the globals
     * hold the submitted username and the submitted password as the reload
     * strips it.
     */
    method SaveFixed(u: string, p: string)
      modifies this
      ensures dotenv == Some(Concat(RewrittenFixed(old(EnvLines()), u, p)))
      ensures env == Reloaded(old(env), dotenv.value)
      ensures adminUser == Lookup(env, UserKey) && adminPass == Lookup(env, PassKey)
      ensures Synced()
      ensures WellFormed(old(EnvLines())) && NoLineBreak(u) && NoLineBreak(p) ==>
                adminUser == Some(Strip(u)) && adminPass == Some(Strip(p))
    {
      if WellFormed(EnvLines()) && NoLineBreak(u) && NoLineBreak(p) {
        FixedReloadSetsPair(env, EnvLines(), u, p);
      }
      var text := Concat(RewrittenFixed(EnvLines(), u, p));
      var raised := Save(text, NoFault);
    }
  }
}
