/** What acceptance by `verify_integrity` is worth (crates/audit/src/lib.rs:72-88, 171-193).
    A digest of bounded length always collides somewhere, so no statement here says that no
    collision exists. Each says instead that two of the records at hand have different contents and
    the same digest, or else the property holds. */
module ChainTheorems {
  import opened Audit

  /** Two of the records at hand have one digest for two contents. */
  ghost predicate Collide(a: seq<AuditRecord>, b: seq<AuditRecord>) {
    exists i, j :: 0 <= i < |a| && 0 <= j < |b| && a[i].content != b[j].content && a[i].thisHash == b[j].thisHash
  }

  lemma CollideMonotone(a: seq<AuditRecord>, b: seq<AuditRecord>, m: nat, n: nat)
    requires m <= |a| && n <= |b| && Collide(a[..m], b[..n])
    ensures Collide(a, b)
  {
    var i, j :| 0 <= i < m && 0 <= j < n && a[..m][i].content != b[..n][j].content && a[..m][i].thisHash == b[..n][j].thisHash;
    assert a[i].content != b[j].content && a[i].thisHash == b[j].thisHash;
  }

  /** An accepted log stays accepted when its tail is cut off. */
  lemma PrefixAccepted(h: Hasher, log: seq<AuditRecord>, n: nat)
    requires n <= |log| && WellChained(h, log)
    ensures WellChained(h, log[..n])
  {
    PrefixChained(h, log, n);
  }

  /** The digest of the last record fixes the whole log: its length and every record. */
  lemma {:induction false} HeadFixesLog(h: Hasher, a: seq<AuditRecord>, b: seq<AuditRecord>)
    requires WellChained(h, a) && WellChained(h, b)
    requires HeadHash(a) == HeadHash(b)
    ensures a == b || Collide(a, b)
    decreases |a|
  {
    assert a != [] ==> SealedAt(h, a, |a| - 1);
    assert b != [] ==> SealedAt(h, b, |b| - 1);
    if a != [] && b != [] {
      var m, n := |a| - 1, |b| - 1;
      assert LinkedAt(a, m) && SealedAt(h, a, m) && LinkedAt(b, n) && SealedAt(h, b, n);
      if a[m].content == b[n].content {
        PrefixAccepted(h, a, m);
        PrefixAccepted(h, b, n);
        HeadFixesLog(h, a[..m], b[..n]);
        if Collide(a[..m], b[..n]) {
          CollideMonotone(a, b, m, n);
        } else {
          assert a == a[..m] + [a[m]] && b == b[..n] + [b[n]];
        }
      }
    }
  }

  /** No two positions of an accepted log carry the same digest. */
  lemma DigestsDistinct(h: Hasher, log: seq<AuditRecord>, i: nat, j: nat)
    requires WellChained(h, log) && i < j < |log|
    ensures log[i].thisHash != log[j].thisHash || Collide(log, log)
  {
    if log[i].thisHash == log[j].thisHash {
      PrefixAccepted(h, log, i + 1);
      PrefixAccepted(h, log, j + 1);
      HeadFixesLog(h, log[..i + 1], log[..j + 1]);
      assert |log[..i + 1]| != |log[..j + 1]|;
      CollideMonotone(log, log, i + 1, j + 1);
    }
  }

  /** Whoever rearranges, repeats or drops records of an accepted log, forging none, can only
      cut off its tail: a log made of its records is accepted exactly when it is a prefix. */
  lemma OnlyPrefixesAccepted(h: Hasher, log: seq<AuditRecord>, edited: seq<AuditRecord>)
    requires WellChained(h, log) && forall r :: r in edited ==> r in log
    ensures Collide(log, log) || (WellChained(h, edited) <==> edited <= log)
  {
    if !Collide(log, log) {
      if WellChained(h, edited) {
        EditedIsPrefix(h, log, edited);
      }
      if edited <= log {
        PrefixAccepted(h, log, |edited|);
        assert edited == log[..|edited|];
      }
    }
  }

  lemma {:induction false} EditedIsPrefix(h: Hasher, log: seq<AuditRecord>, edited: seq<AuditRecord>)
    requires WellChained(h, log) && WellChained(h, edited) && !Collide(log, log)
    requires forall r :: r in edited ==> r in log
    ensures edited <= log
    decreases |edited|
  {
    if edited != [] {
      var n := |edited| - 1;
      PrefixAccepted(h, edited, n);
      EditedIsPrefix(h, log, edited[..n]);
      assert edited[n] in log;
      var k :| 0 <= k < |log| && log[k] == edited[n];
      assert LinkedAt(edited, n) && LinkedAt(log, k);
      SamePosition(h, log, n, k);
      assert edited == edited[..n] + [edited[n]] && edited[..n] == log[..n];
    }
  }

  /** In an accepted log, the digest before a position tells the position. */
  lemma SamePosition(h: Hasher, log: seq<AuditRecord>, n: nat, k: nat)
    requires WellChained(h, log) && !Collide(log, log) && n <= |log| && k < |log|
    requires HeadHash(log[..n]) == HeadHash(log[..k])
    ensures n == k
  {
    PrefixAccepted(h, log, n);
    PrefixAccepted(h, log, k);
    HeadFixesLog(h, log[..n], log[..k]);
    if Collide(log[..n], log[..k]) {
      CollideMonotone(log, log, n, k);
    }
  }

  /** Removing any record but the last is detected. */
  lemma InteriorDeletionDetected(h: Hasher, log: seq<AuditRecord>, k: nat)
    requires WellChained(h, log) && k + 1 < |log|
    ensures !WellChained(h, log[..k] + log[k + 1..]) || Collide(log, log)
  {
    var edited := log[..k] + log[k + 1..];
    OnlyPrefixesAccepted(h, log, edited);
    if edited <= log && !Collide(log, log) {
      assert edited[k] == log[k + 1] && edited[k] == log[k];
      DigestsDistinct(h, log, k, k + 1);
    }
  }

  /** The claim that removing any past record is detected fails for the last one, at every length. */
  lemma LastDeletionUndetected(h: Hasher, log: seq<AuditRecord>)
    requires WellChained(h, log) && log != []
    ensures WellChained(h, log[..|log| - 1]) && log[..|log| - 1] != log
  {
    PrefixAccepted(h, log, |log| - 1);
  }

  /** A rewrite that changes any record, and is accepted, ends in a different digest. */
  lemma RewriteChangesHead(h: Hasher, log: seq<AuditRecord>, rewritten: seq<AuditRecord>)
    requires WellChained(h, log) && WellChained(h, rewritten) && log != rewritten
    ensures HeadHash(log) != HeadHash(rewritten) || Collide(log, rewritten)
  {
    if HeadHash(log) == HeadHash(rewritten) {
      HeadFixesLog(h, log, rewritten);
    }
  }
}
