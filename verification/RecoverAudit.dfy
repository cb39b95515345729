/** The recover command of scripts/production-mutation-lock.py: an audit line is
    written and made durable before the lock is touched. */
module RecoverAudit {
  import opened Prelude
  import opened PyText
  import opened CanonicalJson
  import opened Patterns

  datatype Owner = Owner(
    token: string,
    owner: string,
    action: string,
    ownerHost: string,
    ownerPid: int,
    startedAt: string)

  predicate IsToken(s: string) {
    |s| == 64 && forall c :: c in s ==> IsHex(c)
  }

  predicate IsIdChar(c: char) {
    'A' <= c <= 'Z' || 'a' <= c <= 'z' || '0' <= c <= '9' || c in {'_', ':', '-'}
  }

  predicate IsId(s: string) {
    1 <= |s| <= 128 && forall c :: c in s ==> IsIdChar(c)
  }

  /** What the authority check accepts of the metadata in owner.json. */
  predicate IsOwner(m: Owner) {
    IsToken(m.token) && IsId(m.owner) && IsId(m.action) && IsId(m.ownerHost) && m.ownerPid > 0
  }

  lemma OwnersRun()
    ensures forall m :: IsOwner(m) ==> m.ownerPid >= 1
  {
  }

  function TokenDigest(sha: string -> string, token: string): string {
    "sha256:" + sha(token)
  }

  function AuditEntry(sha: string -> string, m: Owner, operator: string, reason: string, now: string): Dict
    requires IsToken(m.token)
  {
    map["recovered_at" := Str(now), "operator" := Str(operator), "reason" := Str(reason),
        "lock_owner" := Str(m.owner), "lock_action" := Str(m.action), "lock_owner_host" := Str(m.ownerHost),
        "lock_owner_pid" := Num(m.ownerPid), "lock_started_at" := Str(m.startedAt),
        "lock_token_digest" := Str(TokenDigest(sha, m.token)), "lock_token_prefix" := Str(m.token[..16] + "...")]
  }

  function AuditLine(sha: string -> string, m: Owner, operator: string, reason: string, now: string): string
    requires IsToken(m.token)
  {
    Print(Obj(AuditEntry(sha, m, operator, reason, now))) + "\n"
  }

  /** Every fact under its own name, the token by its digest and its first
      sixteen characters only. */
  lemma EntrySays(sha: string -> string, m: Owner, operator: string, reason: string, now: string)
    requires IsToken(m.token)
    ensures var d := AuditEntry(sha, m, operator, reason, now);
            && Get(d, "operator") == Str(operator) && Get(d, "reason") == Str(reason)
            && Get(d, "recovered_at") == Str(now) && Get(d, "lock_started_at") == Str(m.startedAt)
            && Get(d, "lock_owner") == Str(m.owner) && Get(d, "lock_action") == Str(m.action)
            && Get(d, "lock_owner_host") == Str(m.ownerHost) && Get(d, "lock_owner_pid") == Num(m.ownerPid)
            && Get(d, "lock_token_digest") == Str("sha256:" + sha(m.token))
            && Get(d, "lock_token_prefix").Str? && |Get(d, "lock_token_prefix").s| == 19
            && m.token[..16] <= Get(d, "lock_token_prefix").s
  {
  }

  /** What would be left of the audit file after a crash of the host. */
  datatype Disk = Disk(content: string, entryDurable: bool)

  class LockHost {
    const sha: string -> string

    /** No system call fails; a write may still be short. */
    const calm: bool

    /** The lock directory exists; owner.json in it, if present. */
    var dir: bool
    var owner: Option<Owner>

    /** The audit file: what a reader sees, and what is on disk. */
    var audit: string
    var disk: Disk

    /** The disk at the moment owner.json was removed. */
    ghost var diskAtRemoval: Option<Disk>

    constructor (sha: string -> string, calm: bool, dir: bool, owner: Option<Owner>, audit: string)
      ensures this.sha == sha && this.calm == calm && this.dir == dir && this.owner == owner && this.audit == audit
      ensures disk == Disk(audit, true) && diskAtRemoval == None
    {
      this.sha, this.calm, this.dir, this.owner, this.audit := sha, calm, dir, owner, audit;
      disk, diskAtRemoval := Disk(audit, true), None;
    }

    /** The lock is held, in good order, for a token. */
    predicate Holds(token: string)
      reads `dir, `owner
    {
      dir && owner.Some? && IsOwner(owner.value) && owner.value.token == token && IsToken(token)
    }

    /** Whether a system call succeeds. */
    method Succeeds() returns (ok: bool)
      ensures calm ==> ok
    {
      ok := *;
      ok := ok || calm;
    }

    /** `_check_authority`: any of its checks on types, modes, links and
        timestamps may fail as well. */
    method CheckAuthority() returns (r: Result<Owner>)
      ensures r.Success? ==> dir && owner == Some(r.value) && IsOwner(r.value)
      ensures calm && dir && owner.Some? && IsOwner(owner.value) ==> r.Success?
    {
      var otherChecks := Succeeds();
      if !otherChecks || !dir || owner.None? || !IsOwner(owner.value) {
        return Failure;
      }
      return Success(owner.value);
    }

    /** One `os.write`: it may raise, write nothing or write a part. */
    method Write(payload: string) returns (written: int)
      requires payload != ""
      modifies `audit, `disk
      ensures written <= |payload| && (calm ==> written > 0)
      ensures audit == old(audit) + (if written > 0 then payload[..written] else "")
    {
      written := *;
      if calm && written <= 0 {
        written := 1;
      }
      if written <= 0 {
        written := 0;
      } else {
        written := if written > |payload| then |payload| else written;
        audit := audit + payload[..written];
      }
      disk := *;
    }

    /** `_audit_append` */
    method AuditAppend(line: string) returns (r: Verdict)
      modifies `audit, `disk
      ensures r.Fine? ==> audit == old(audit) + line && disk == Disk(audit, true)
      ensures exists n :: 0 <= n <= |line| && audit == old(audit) + line[..n]
      ensures calm ==> r.Fine?
    {
      var parentOk := Succeeds();
      var canOpen := Succeeds();
      assert old(audit) == old(audit) + line[..0];
      if !parentOk || !canOpen {
        return Raise;
      }
      var fileOk := Succeeds();
      if !fileOk {
        return Raise;
      }
      var payload := line;
      while payload != ""
        invariant |payload| <= |line| && payload == line[|line| - |payload|..]
        invariant audit == old(audit) + line[..|line| - |payload|]
        decreases |payload|
      {
        ghost var done := |line| - |payload|;
        var written := Write(payload);
        if written <= 0 {
          assert audit == old(audit) + line[..done];
          return Raise;
        }
        assert line[..done] + line[done..][..written] == line[..done + written];
        payload := payload[written..];
      }
      var synced := Succeeds();
      if !synced {
        return Raise;
      }
      disk := disk.(content := audit);
      var parentSynced := Succeeds();
      if !parentSynced {
        return Raise;
      }
      disk := disk.(entryDurable := true);
      assert line[..|line|] == line;
      return Fine;
    }

    /** `unlink` and `rmdir`, each of which may fail. */
    method RemoveLock() returns (r: Verdict)
      modifies `dir, `owner, `diskAtRemoval
      ensures r.Fine? ==> !dir && owner.None?
      ensures owner == old(owner) || owner == None
      ensures dir == old(dir) || (!dir && owner.None?)
      ensures owner == old(owner) ==> diskAtRemoval == old(diskAtRemoval)
      ensures owner != old(owner) ==> diskAtRemoval == Some(disk)
      ensures calm && old(dir) && old(owner).Some? ==> r.Fine?
    {
      var unlinked := Succeeds();
      var removed := Succeeds();
      if !unlinked || owner.None? {
        return Raise;
      }
      owner, diskAtRemoval := None, Some(disk);
      if !removed || !dir {
        return Raise;
      }
      dir := false;
      return Fine;
    }

    /** `recover`. Whatever fails, and wherever:
        - owner.json goes away only if it held the given token, its complete
          audit line had been appended, and the file and its directory entry
          were durable at that moment;
        - until then the lock is unchanged, and the audit file has gained at
          most a beginning of the line;
        - nothing changes at all unless the caller is root, has confirmed, and
          neither probe finds anything running. */
    method Recover(token: string, operator: string, reason: string, confirmed: bool, now: string,
                   root: bool, noUnits: bool, noProcesses: bool)
      returns (r: Verdict)
      modifies this
      ensures r.Fine? ==> owner.None? && !dir && owner != old(owner)
      ensures audit != old(audit) || owner != old(owner) ==>
        && root && noUnits && noProcesses && confirmed && IsToken(token) && IsId(operator) && IsId(reason)
        && |token| == 64 && 1 <= |operator| <= 128 && 1 <= |reason| <= 128
        && old(owner).Some? && old(owner).value.ownerPid >= 1
      ensures calm && old(Holds(token)) && root && confirmed && noUnits && noProcesses ==>
        (IsId(operator) && IsId(reason) ==> r.Fine?)
      ensures owner != old(owner) ==>
        && owner.None? && old(owner).value.token == token && IsOwner(old(owner).value)
        && var line := AuditLine(sha, old(owner).value, operator, reason, now);
        && audit == old(audit) + line && diskAtRemoval == Some(Disk(old(audit) + line, true))
      ensures owner == old(owner) ==> dir == old(dir) && diskAtRemoval == old(diskAtRemoval)
      ensures audit != old(audit) ==>
        && old(owner).Some? && IsOwner(old(owner).value)
        && var line := AuditLine(sha, old(owner).value, operator, reason, now);
        && exists n :: 0 <= n <= |line| && audit == old(audit) + line[..n]
    {
      hide IsOwner, AuditLine;
      if !root || !IsToken(token) || !IsId(operator) || !IsId(reason) || !confirmed {
        return Raise;
      }
      var checked := CheckAuthority();
      assert checked.Success? ==> checked.value.ownerPid >= 1 by { OwnersRun(); }
      if checked.Failure? || checked.value.token != token {
        return Raise;
      }
      if !noUnits {
        return Raise;
      }
      if !noProcesses {
        return Raise;
      }
      r := AuditAppend(AuditLine(sha, checked.value, operator, reason, now));
      if r.Raise? {
        return;
      }
      r := RemoveLock();
    }
  }

  // ----- reading the audit file -----

  /** The last complete line of a text that ends in a line break. */
  function LastLine(text: string): string
    requires |Split(text, '\n')| >= 2
  {
    var parts := Split(text, '\n');
    parts[|parts| - 2]
  }

  /** The unfinished line at the end of a text. */
  function Unfinished(text: string): string {
    var parts := Split(text, '\n');
    parts[|parts| - 1]
  }

  lemma {:induction false} UnfinishedIsEmpty(text: string)
    ensures Unfinished(text) == "" <==> text == "" || text[|text| - 1] == '\n'
    ensures |Split(text, '\n')| == 1 ==> Unfinished(text) == text
  {
    if text != "" {
      UnfinishedIsEmpty(text[1..]);
      if |text| == 1 {
        assert text[1..] == "";
      }
      assert [text[0]] + text[1..] == text;
    }
  }

  lemma {:induction false} SplitLine(text: string, body: string)
    requires OneLine(body)
    ensures var parts := Split(text, '\n');
            Split(text + body + "\n", '\n') == parts[..|parts| - 1] + [parts[|parts| - 1] + body, ""]
  {
    if text == "" {
      SplitAppend(body, "", '\n');
      assert text + body + "\n" == body + ['\n'] + "" && text + body == body;
      assert Split("", '\n') == [""];
    } else {
      SplitLine(text[1..], body);
      assert (text + body + "\n")[1..] == text[1..] + body + "\n";
      var rest, whole := Split(text[1..], '\n'), Split(text[1..] + body + "\n", '\n');
      if text[0] == '\n' {
        StepOverBreak(rest, whole, body);
      } else {
        StepOverChar(text[0], rest, whole, body);
      }
    }
  }

  lemma StepOverBreak(rest: seq<string>, whole: seq<string>, body: string)
    requires rest != [] && whole == rest[..|rest| - 1] + [rest[|rest| - 1] + body, ""]
    ensures var parts := [""] + rest;
            [""] + whole == parts[..|parts| - 1] + [parts[|parts| - 1] + body, ""]
  {
  }

  lemma StepOverChar(c: char, rest: seq<string>, whole: seq<string>, body: string)
    requires rest != [] && whole == rest[..|rest| - 1] + [rest[|rest| - 1] + body, ""]
    ensures var parts := [[c] + rest[0]] + rest[1..];
            [[c] + whole[0]] + whole[1..] == parts[..|parts| - 1] + [parts[|parts| - 1] + body, ""]
  {
    if |rest| == 1 {
      assert [c] + (rest[0] + body) == [c] + rest[0] + body;
    }
  }

  /** The entry a recovery appends is a line of its own exactly when the file
      was empty or ended in a line break at that time. After a recovery that
      was cut short in the middle of its line it is not: the two run together. */
  lemma EntryStandsAlone(sha: string -> string, before: string, m: Owner, operator: string, reason: string, now: string)
    requires IsToken(m.token)
    ensures var after := before + AuditLine(sha, m, operator, reason, now);
            && |Split(after, '\n')| >= 2
            && LastLine(after) == Unfinished(before) + Print(Obj(AuditEntry(sha, m, operator, reason, now)))
            && (LastLine(after) == Print(Obj(AuditEntry(sha, m, operator, reason, now)))
                <==> before == "" || before[|before| - 1] == '\n')
  {
    hide Print, AuditEntry, Split;
    var body := Print(Obj(AuditEntry(sha, m, operator, reason, now)));
    PrintOneLine(Obj(AuditEntry(sha, m, operator, reason, now)));
    SplitLine(before, body);
    assert before + (body + "\n") == before + body + "\n";
    UnfinishedIsEmpty(before);
  }

  /** The entry names the token by its digest: entries of different tokens differ. */
  lemma EntryNamesToken(sha: string -> string, m: Owner, n: Owner, operator: string, reason: string, now: string,
                        operator': string, reason': string, now': string)
    requires Injective(sha) && IsToken(m.token) && IsToken(n.token)
    requires AuditLine(sha, m, operator, reason, now) == AuditLine(sha, n, operator', reason', now')
    ensures m == n && operator == operator' && reason == reason' && now == now'
  {
    hide Print;
    var a, b := AuditEntry(sha, m, operator, reason, now), AuditEntry(sha, n, operator', reason', now');
    assert Print(Obj(a)) == AuditLine(sha, m, operator, reason, now)[..|AuditLine(sha, m, operator, reason, now)| - 1];
    PrintInjective(Obj(a), Obj(b));
    assert a["recovered_at"] == b["recovered_at"] && a["operator"] == b["operator"] && a["reason"] == b["reason"];
    assert a["lock_owner"] == b["lock_owner"] && a["lock_action"] == b["lock_action"];
    assert a["lock_owner_host"] == b["lock_owner_host"] && a["lock_owner_pid"] == b["lock_owner_pid"];
    assert a["lock_started_at"] == b["lock_started_at"] && a["lock_token_digest"] == b["lock_token_digest"];
    SameDigest(sha, m.token, n.token);
  }

  lemma SameDigest(sha: string -> string, a: string, b: string)
    requires Injective(sha) && TokenDigest(sha, a) == TokenDigest(sha, b)
    ensures a == b
  {
    assert TokenDigest(sha, a)[7..] == sha(a) && TokenDigest(sha, b)[7..] == sha(b);
  }
}
