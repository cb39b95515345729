/** The hash-chained, append-only event ledger of scripts/p9_3c1_controller.py. */
module Ledger {
  import opened Prelude
  import opened CanonicalJson

  /** One parsed line of the ledger file. */
  type Record = Dict

  const GENESIS := "0000000000000000000000000000000000000000000000000000000000000000"

  /** `evidence or {}` */
  function Normalized(evidence: Json): Json {
    if Truthy(evidence) then evidence else Obj(map[])
  }

  /** What `_compute_record_sha` prints: every field but the digest itself. */
  function Hashed(seqNo: Json, timestamp: string, phase: Json, event: Json, prev: Json, evidence: Json): Json {
    Obj(map[
      "seq" := seqNo,
      "timestamp_utc" := Str(timestamp),
      "phase" := phase,
      "event" := event,
      "prev_sha256" := prev,
      "evidence" := Normalized(evidence)])
  }

  function RecordSha(sha: string -> string, rec: Record): string
    requires "phase" in rec && "event" in rec && Get(rec, "timestamp_utc").Str?
  {
    sha(Print(Hashed(Get(rec, "seq"), Get(rec, "timestamp_utc").s, rec["phase"], rec["event"],
                     Get(rec, "prev_sha256"), Get(rec, "evidence"))))
  }

  /** The checks one record has to pass, given its position and the digest
      carried over from its predecessor. */
  predicate Linked(sha: string -> string, rec: Record, position: nat, prev: string) {
    && EqualsInt(Get(rec, "seq"), position + 1)
    && Get(rec, "prev_sha256") == Str(prev)
    && Get(rec, "timestamp_utc").Str? && Get(rec, "timestamp_utc").s != ""
    && "phase" in rec && "event" in rec
    && Get(rec, "record_sha256") == Str(RecordSha(sha, rec))
  }

  /** The digest that record `i` has to name as its predecessor. */
  function PrevSha(records: seq<Record>, i: nat): string
    requires i <= |records|
  {
    if i == 0 then GENESIS
    else if Get(records[i - 1], "record_sha256").Str? then Get(records[i - 1], "record_sha256").s
    else ""
  }

  ghost predicate ValidChain(sha: string -> string, records: seq<Record>) {
    forall i {:trigger PrevSha(records, i)} :: 0 <= i < |records| ==> Linked(sha, records[i], i, PrevSha(records, i))
  }

  /** `_validate_ledger_chain`; a result of false stands for the exception. */
  method ValidateLedgerChain(sha: string -> string, records: seq<Record>) returns (ok: bool)
    ensures ok <==> ValidChain(sha, records)
  {
    hide RecordSha;
    var prev := GENESIS;
    for i := 0 to |records|
      invariant prev == PrevSha(records, i)
      invariant forall j {:trigger PrevSha(records, j)} :: 0 <= j < i ==>
        Linked(sha, records[j], j, PrevSha(records, j))
    {
      var rec := records[i];
      assert PrevSha(records, i) == prev;
      if !EqualsInt(Get(rec, "seq"), i + 1) || Get(rec, "prev_sha256") != Str(prev) {
        return false;
      }
      if !Get(rec, "timestamp_utc").Str? || Get(rec, "timestamp_utc").s == "" {
        return false;
      }
      if "phase" !in rec || "event" !in rec || Get(rec, "record_sha256") != Str(RecordSha(sha, rec)) {
        return false;
      }
      prev := Get(rec, "record_sha256").s;
    }
    return true;
  }

  // ----- the tail commits to the whole history -----

  /** Evidence that is missing counts as empty. */
  ghost predicate SameEvidence(a: Json, b: Json) {
    a == b || (!Truthy(a) && !Truthy(b))
  }

  ghost predicate SameRecord(a: Record, b: Record) {
    && Get(a, "seq") == Get(b, "seq")
    && Get(a, "timestamp_utc") == Get(b, "timestamp_utc")
    && Get(a, "phase") == Get(b, "phase")
    && Get(a, "event") == Get(b, "event")
    && Get(a, "prev_sha256") == Get(b, "prev_sha256")
    && SameEvidence(Get(a, "evidence"), Get(b, "evidence"))
    && Get(a, "record_sha256") == Get(b, "record_sha256")
  }

  /** Of a record as `_append_ledger` writes it, everything is hashed but its own
      digest. */
  lemma DigestCoversRecord(sha: string -> string, rec: Record)
    requires rec.Keys == {"seq", "timestamp_utc", "phase", "event", "prev_sha256", "evidence", "record_sha256"}
    requires rec["timestamp_utc"].Str? && rec["evidence"].Obj?
    ensures RecordSha(sha, rec) == sha(Print(Obj(rec - {"record_sha256"})))
  {
    hide Print;
    var hashed := Hashed(rec["seq"], rec["timestamp_utc"].s, rec["phase"], rec["event"], rec["prev_sha256"],
                         rec["evidence"]).fields;
    assert hashed.Keys == (rec - {"record_sha256"}).Keys;
    assert hashed == rec - {"record_sha256"};
  }

  lemma HashedInjective(s: Json, t: string, p: Json, e: Json, q: Json, v: Json,
                        s': Json, t': string, p': Json, e': Json, q': Json, v': Json)
    requires Hashed(s, t, p, e, q, v) == Hashed(s', t', p', e', q', v')
    ensures s == s' && t == t' && p == p' && e == e' && q == q' && Normalized(v) == Normalized(v')
  {
    var a, b := Hashed(s, t, p, e, q, v).fields, Hashed(s', t', p', e', q', v').fields;
    assert a["seq"] == b["seq"] && a["timestamp_utc"] == b["timestamp_utc"];
    assert a["phase"] == b["phase"] && a["event"] == b["event"];
    assert a["prev_sha256"] == b["prev_sha256"] && a["evidence"] == b["evidence"];
  }

  /** Two linked records with one digest agree on everything that is hashed. */
  lemma DigestFixesRecord(sha: string -> string, a: Record, i: nat, p: string, b: Record, j: nat, q: string)
    requires Injective(sha)
    requires Linked(sha, a, i, p) && Linked(sha, b, j, q)
    requires Get(a, "record_sha256") == Get(b, "record_sha256")
    ensures SameRecord(a, b) && i == j && p == q
  {
    hide Hashed;
    PrintInjective(
      Hashed(Get(a, "seq"), Get(a, "timestamp_utc").s, a["phase"], a["event"], Get(a, "prev_sha256"),
             Get(a, "evidence")),
      Hashed(Get(b, "seq"), Get(b, "timestamp_utc").s, b["phase"], b["event"], Get(b, "prev_sha256"),
             Get(b, "evidence")));
    HashedInjective(
      Get(a, "seq"), Get(a, "timestamp_utc").s, a["phase"], a["event"], Get(a, "prev_sha256"), Get(a, "evidence"),
      Get(b, "seq"), Get(b, "timestamp_utc").s, b["phase"], b["event"], Get(b, "prev_sha256"), Get(b, "evidence"));
  }

  /** One digest in common, at whatever positions, fixes the whole history up
      to it: the positions are the same and so is every earlier record. */
  lemma {:induction false} CheckpointCommits(sha: string -> string, a: seq<Record>, b: seq<Record>, i: nat, j: nat)
    requires Injective(sha) && ValidChain(sha, a) && ValidChain(sha, b)
    requires i < |a| && j < |b| && Get(a[i], "record_sha256") == Get(b[j], "record_sha256")
    ensures i == j && forall k :: 0 <= k <= i ==> SameRecord(a[k], b[k])
    decreases i
  {
    hide Linked, SameRecord;
    DigestFixesRecord(sha, a[i], i, PrevSha(a, i), b[j], j, PrevSha(b, j));
    if i > 0 {
      LinkedDigest(sha, a[i - 1], i - 1, PrevSha(a, i - 1));
      LinkedDigest(sha, b[i - 1], i - 1, PrevSha(b, i - 1));
      CheckpointCommits(sha, a, b, i - 1, i - 1);
    }
  }

  lemma LinkedDigest(sha: string -> string, rec: Record, position: nat, prev: string)
    requires Linked(sha, rec, position, prev)
    ensures Get(rec, "record_sha256").Str?
  {
  }

  /** Ledgers that both validate and end in the same digest are equal. */
  lemma TailCommits(sha: string -> string, a: seq<Record>, b: seq<Record>)
    requires Injective(sha) && ValidChain(sha, a) && ValidChain(sha, b)
    requires a != [] && b != []
    requires Get(a[|a| - 1], "record_sha256") == Get(b[|b| - 1], "record_sha256")
    ensures |a| == |b| && forall k :: 0 <= k < |a| ==> SameRecord(a[k], b[k])
  {
    CheckpointCommits(sha, a, b, |a| - 1, |b| - 1);
  }

  // ----- appending -----

  /** The record `_append_ledger` writes after the given ones. */
  function NewRecord(sha: string -> string, records: seq<Record>, phase: string, event: string, evidence: Dict,
                     timestamp: string): Record {
    var last := if records == [] then map[] else records[|records| - 1];
    var seqNo := Num(IntValue(Get(last, "seq")) + 1);
    var prev := if "record_sha256" in last then last["record_sha256"] else Str(GENESIS);
    Sign(sha, map["seq" := seqNo, "timestamp_utc" := Str(timestamp), "phase" := Str(phase), "event" := Str(event),
                  "prev_sha256" := prev, "evidence" := Obj(evidence)])
  }

  function Sign(sha: string -> string, body: Record): Record
    requires "phase" in body && "event" in body && Get(body, "timestamp_utc").Str?
  {
    body["record_sha256" := Str(RecordSha(sha, body))]
  }

  /** The digest is not part of what is hashed. */
  lemma SignedFields(sha: string -> string, body: Record)
    requires "phase" in body && "event" in body && Get(body, "timestamp_utc").Str?
    ensures var rec := Sign(sha, body);
            && (forall name :: name != "record_sha256" ==> Get(rec, name) == Get(body, name))
            && "phase" in rec && "event" in rec
            && Get(rec, "record_sha256") == Str(RecordSha(sha, rec))
  {
    hide Print, Hashed;
    var rec := Sign(sha, body);
    assert forall name :: name != "record_sha256" ==> Get(rec, name) == Get(body, name);
    assert rec["phase"] == body["phase"] && rec["event"] == body["event"];
  }

  /** Appending to a valid chain gives a valid chain. */
  lemma AppendKeepsChain(sha: string -> string, records: seq<Record>, phase: string, event: string, evidence: Dict,
                         timestamp: string)
    requires ValidChain(sha, records) && timestamp != ""
    ensures ValidChain(sha, records + [NewRecord(sha, records, phase, event, evidence, timestamp)])
  {
    hide Linked, NewRecord;
    var rec := NewRecord(sha, records, phase, event, evidence, timestamp);
    NewRecordLinked(sha, records, phase, event, evidence, timestamp);
    ExtendChain(sha, records, rec);
  }

  lemma ExtendChain(sha: string -> string, records: seq<Record>, rec: Record)
    requires ValidChain(sha, records) && Linked(sha, rec, |records|, PrevSha(records, |records|))
    ensures ValidChain(sha, records + [rec])
  {
    hide Linked;
    forall i | 0 <= i <= |records| ensures Linked(sha, (records + [rec])[i], i, PrevSha(records + [rec], i)) {
      assert PrevSha(records + [rec], i) == PrevSha(records, i);
    }
  }

  lemma NewRecordFields(sha: string -> string, records: seq<Record>, phase: string, event: string, evidence: Dict,
                        timestamp: string)
    ensures var rec := NewRecord(sha, records, phase, event, evidence, timestamp);
            && Get(rec, "phase") == Str(phase) && Get(rec, "event") == Str(event)
            && Get(rec, "timestamp_utc") == Str(timestamp) && Get(rec, "evidence") == Obj(evidence)
            && "phase" in rec && "event" in rec
            && rec.Keys == {"seq", "timestamp_utc", "phase", "event", "prev_sha256", "evidence", "record_sha256"}
            && Get(rec, "record_sha256") == Str(RecordSha(sha, rec))
            && Get(rec, "record_sha256") == Str(sha(Print(Obj(rec - {"record_sha256"}))))
            && (records == [] ==> Get(rec, "seq") == Num(1) && Get(rec, "prev_sha256") == Str(GENESIS))
            && (records != [] ==> Get(rec, "seq") == Num(IntValue(Get(records[|records| - 1], "seq")) + 1))
            && (records != [] && "record_sha256" in records[|records| - 1]
                ==> Get(rec, "prev_sha256") == records[|records| - 1]["record_sha256"])
  {
    hide Print, Hashed, RecordSha;
    var last := if records == [] then map[] else records[|records| - 1];
    var seqNo := Num(IntValue(Get(last, "seq")) + 1);
    var prev := if "record_sha256" in last then last["record_sha256"] else Str(GENESIS);
    var body := map["seq" := seqNo, "timestamp_utc" := Str(timestamp), "phase" := Str(phase), "event" := Str(event),
                  "prev_sha256" := prev, "evidence" := Obj(evidence)];
    SignedFields(sha, body);
    DigestCoversRecord(sha, Sign(sha, body));
  }

  lemma NewRecordLinked(sha: string -> string, records: seq<Record>, phase: string, event: string, evidence: Dict,
                        timestamp: string)
    requires ValidChain(sha, records) && timestamp != ""
    ensures Linked(sha, NewRecord(sha, records, phase, event, evidence, timestamp), |records|,
                   PrevSha(records, |records|))
  {
    hide RecordSha, NewRecord;
    NewRecordFields(sha, records, phase, event, evidence, timestamp);
    if records != [] {
      assert Linked(sha, records[|records| - 1], |records| - 1, PrevSha(records, |records| - 1));
    }
  }
}
