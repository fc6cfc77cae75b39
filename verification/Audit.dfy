/** The append-only, hash-chained audit log (crates/audit/src/lib.rs). */
module Audit {
  import opened Common

  datatype AuditEvent =
    | AlertCreated(anomalyScore: real, severity: Severity)
    | RulesTriggered(ruleIds: seq<string>)
    | AiContextSent(reasonCount: nat)
    | AiRecommendationReceived(confidence: Float, modelAvailable: bool)
    | InvestigatorDecision(investigator: string, decision: Status, notes: string)
    | StatusChanged(from: Status, to: Status)
    | Note(message: string)

  /** The content that SHA-256 (section 6.2 of FIPS 180-4) is run over. */
  datatype HashInput = HashInput(
    prevHash: string,
    recordId: Uuid,
    alertId: Uuid,
    txHash: string,
    timestamp: Time,
    event: AuditEvent
  )

  datatype AuditRecord = AuditRecord(content: HashInput, thisHash: string)

  const DIGEST_LENGTH: nat := 64

  function Zeros(n: nat): (s: string)
    ensures |s| == n
  {
    if n == 0 then "" else "0" + Zeros(n - 1)
  }

  /** Ninety-four zeros, so longer than any digest. */
  const GENESIS_HASH: string := Zeros(94)

  type Digest = s: string | |s| == DIGEST_LENGTH witness Zeros(DIGEST_LENGTH)

  /** The digest, as lower-case hexadecimal text, of the bytes that the content is rendered to.
      Nothing is assumed about it except the length of its results. */
  type Hasher = HashInput -> Digest

  /** A fresh record id and a clock reading: what one append draws from its surroundings. */
  datatype Stamp = Stamp(recordId: Uuid, at: Time)

  function HeadHash(log: seq<AuditRecord>): string {
    if log == [] then GENESIS_HASH else log[|log| - 1].thisHash
  }

  function Appended(h: Hasher, log: seq<AuditRecord>, alertId: Uuid, txHash: string, event: AuditEvent, stamp: Stamp)
    : seq<AuditRecord>
  {
    var content := HashInput(HeadHash(log), stamp.recordId, alertId, txHash, stamp.at, event);
    log + [AuditRecord(content, h(content))]
  }

  /** Record `i` names its predecessor's digest. */
  predicate LinkedAt(log: seq<AuditRecord>, i: nat)
    requires i < |log|
  {
    log[i].content.prevHash == HeadHash(log[..i])
  }

  /** Record `i` carries the digest of its own content. */
  predicate SealedAt(h: Hasher, log: seq<AuditRecord>, i: nat)
    requires i < |log|
  {
    log[i].thisHash == h(log[i].content)
  }

  ghost predicate WellChained(h: Hasher, log: seq<AuditRecord>) {
    forall i :: 0 <= i < |log| ==> LinkedAt(log, i) && SealedAt(h, log, i)
  }

  datatype IntegrityError = ChainBroken(index: nat) | HashMismatch(index: nat)

  /** Appending keeps a chained log chained, and never touches what was recorded. */
  lemma AppendKeepsChain(h: Hasher, log: seq<AuditRecord>, alertId: Uuid, txHash: string, event: AuditEvent, stamp: Stamp)
    requires WellChained(h, log)
    ensures WellChained(h, Appended(h, log, alertId, txHash, event, stamp))
    ensures log <= Appended(h, log, alertId, txHash, event, stamp)
  {
    var longer := Appended(h, log, alertId, txHash, event, stamp);
    forall i | 0 <= i < |longer| ensures LinkedAt(longer, i) && SealedAt(h, longer, i) {
      if i < |log| {
        assert longer[..i] == log[..i] && LinkedAt(log, i) && SealedAt(h, log, i);
      } else {
        assert longer[..i] == log;
      }
    }
  }

  function ForAlert(log: seq<AuditRecord>, alertId: Uuid): seq<AuditRecord> {
    Filter((r: AuditRecord) => r.content.alertId == alertId, log)
  }

  class AuditLog {
    var records: seq<AuditRecord>
    const hasher: Hasher

    constructor (h: Hasher)
      ensures records == [] && hasher == h
    {
      records := [];
      hasher := h;
    }

    method Append(alertId: Uuid, txHash: string, event: AuditEvent, stamp: Stamp) returns (record: AuditRecord)
      modifies this
      ensures records == Appended(hasher, old(records), alertId, txHash, event, stamp)
      ensures records == old(records) + [record]
    {
      var prevHash := if records == [] then GENESIS_HASH else records[|records| - 1].thisHash;
      var content := HashInput(prevHash, stamp.recordId, alertId, txHash, stamp.at, event);
      record := AuditRecord(content, hasher(content));
      records := records + [record];
    }

    method All() returns (copy: seq<AuditRecord>)
      ensures copy == records
    {
      copy := records;
    }

    method Restore(saved: seq<AuditRecord>)
      modifies this
      ensures records == saved
    {
      records := saved;
    }

    /** Accepts exactly the well-chained logs. Otherwise it names the first bad record, and says
        whether the link or the digest is wrong there; a record bad in both ways counts as a broken link. */
    method VerifyIntegrity() returns (error: Option<IntegrityError>)
      ensures error.None? <==> WellChained(hasher, records)
      ensures error.Some? ==>
                var i := error.value.index;
                && i < |records|
                && WellChained(hasher, records[..i])
                && (error.value.ChainBroken? <==> !LinkedAt(records, i))
                && (error.value.HashMismatch? <==> LinkedAt(records, i) && !SealedAt(hasher, records, i))
    {
      var expectedPrev := GENESIS_HASH;
      for i := 0 to |records|
        invariant expectedPrev == HeadHash(records[..i])
        invariant WellChained(hasher, records[..i])
      {
        var record := records[i];
        if record.content.prevHash != expectedPrev {
          assert !LinkedAt(records, i);
          return Some(ChainBroken(i));
        }
        if hasher(record.content) != record.thisHash {
          assert !SealedAt(hasher, records, i);
          return Some(HashMismatch(i));
        }
        expectedPrev := record.thisHash;
        PrefixExtended(hasher, records, i);
      }
      assert records[..|records|] == records;
      return None;
    }
  }

  lemma PrefixExtended(h: Hasher, log: seq<AuditRecord>, i: nat)
    requires i < |log| && WellChained(h, log[..i]) && LinkedAt(log, i) && SealedAt(h, log, i)
    ensures WellChained(h, log[..i + 1]) && HeadHash(log[..i + 1]) == log[i].thisHash
  {
    var longer := log[..i + 1];
    forall k | 0 <= k < |longer| ensures LinkedAt(longer, k) && SealedAt(h, longer, k) {
      assert longer[..k] == log[..k];
      if k < i {
        assert log[..i][..k] == log[..k] && LinkedAt(log[..i], k) && SealedAt(h, log[..i], k);
      }
    }
  }

  lemma PrefixChained(h: Hasher, log: seq<AuditRecord>, n: nat)
    requires n <= |log|
    requires forall k :: 0 <= k < n ==> LinkedAt(log, k) && SealedAt(h, log, k)
    ensures WellChained(h, log[..n])
  {
    forall i | 0 <= i < n ensures LinkedAt(log[..n], i) && SealedAt(h, log[..n], i) {
      assert log[..n][..i] == log[..i] && LinkedAt(log, i) && SealedAt(h, log, i);
    }
  }
}
