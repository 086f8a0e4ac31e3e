/** `ScriptMetadata`: the fields read from a script header and the audit history,
    kept in ascending order of time stamp. */
module Metadata {
  import opened Wrappers
  import opened Enumerations
  import opened Models
  import opened Ordering

  /** The reference-typed `Id` and `Name` start out null; they are only ever
      returned once the header parser has set them, so the empty string stands
      for null here. `hash` stays null until a `Migration` wraps the script. */
  datatype ScriptMetadata = ScriptMetadata(
    id: string,
    name: string,
    history: seq<Audit>,
    scriptType: ScriptType,
    migrationType: MigrationType,
    hash: Option<string>)

  /** A metadata object as the parameterless constructor leaves it. */
  const Fresh: ScriptMetadata := ScriptMetadata("", "", [], ScriptType.Unknown, MigrationType.None, Option.None)

  /** The sort key of `AddAudit`: the audit's time stamp. */
  function AuditTime(a: Audit): int { a.timeStamp.Ticks() }

  predicate TimeLe(x: int, y: int) { x <= y }

  lemma TimeLeIsTotalPreorder()
    ensures TotalPreorder(TimeLe)
  {
  }

  /** `AddAudit`: append the audit, then stably re-sort the whole history by time stamp. */
  function AddAudit(m: ScriptMetadata, a: Audit): ScriptMetadata {
    m.(history := OrderBy(m.history + [a], AuditTime, TimeLe))
  }

  /** After `AddAudit` the history is sorted by time stamp, holds the old audits
      and the new one and nothing else, keeps audits with equal time stamps in the
      order they were added, and no other field changes. */
  lemma AddAuditSortsStably(m: ScriptMetadata, a: Audit)
    ensures SortedBy(AddAudit(m, a).history, AuditTime, TimeLe)
    ensures multiset(AddAudit(m, a).history) == multiset(m.history) + multiset{a}
    ensures |AddAudit(m, a).history| == |m.history| + 1
    ensures Stable(AddAudit(m, a).history, m.history + [a], AuditTime, TimeLe)
    ensures AddAudit(m, a) == m.(history := AddAudit(m, a).history)
  {
    TimeLeIsTotalPreorder();
    OrderBySortsStably(m.history + [a], AuditTime, TimeLe);
  }

  /** An audit no older than any recorded one lands at the end, and nothing moves. */
  lemma AddLatestAudit(m: ScriptMetadata, a: Audit)
    requires SortedBy(m.history, AuditTime, TimeLe)
    requires forall h :: h in m.history ==> AuditTime(h) <= AuditTime(a)
    ensures AddAudit(m, a).history == m.history + [a]
  {
    TimeLeIsTotalPreorder();
    var s := m.history + [a];
    forall i, j | 0 <= i < j < |s|
      ensures TimeLe(AuditTime(s[i]), AuditTime(s[j]))
    {
      if j == |s| - 1 {
        assert s[i] in m.history;
      } else {
        assert s[i] == m.history[i] && s[j] == m.history[j];
      }
    }
    OrderBySortedIsIdentity(s, AuditTime, TimeLe);
  }

  /** `AddAudit` applied to each audit in turn. */
  function AddAudits(m: ScriptMetadata, audits: seq<Audit>): ScriptMetadata
    decreases |audits|
  {
    if audits == [] then m
    else AddAudit(AddAudits(m, audits[..|audits| - 1]), audits[|audits| - 1])
  }

  lemma AddAuditsSnoc(m: ScriptMetadata, audits: seq<Audit>, a: Audit)
    ensures AddAudits(m, audits + [a]) == AddAudit(AddAudits(m, audits), a)
  {
    assert (audits + [a])[..|audits|] == audits;
  }

  /** Adding audits one at a time touches no field but the history. */
  lemma {:induction false} AddAuditsKeepsFields(m: ScriptMetadata, audits: seq<Audit>)
    ensures AddAudits(m, audits) == m.(history := AddAudits(m, audits).history)
    decreases |audits|
  {
    if audits != [] {
      AddAuditsKeepsFields(m, audits[..|audits| - 1]);
    }
  }

  /** Adding audits one at a time loses and invents nothing. */
  lemma {:induction false} AddAuditsKeepsAudits(m: ScriptMetadata, audits: seq<Audit>)
    ensures multiset(AddAudits(m, audits).history) == multiset(m.history) + multiset(audits)
    decreases |audits|
  {
    if audits != [] {
      var front := audits[..|audits| - 1];
      var last := audits[|audits| - 1];
      assert audits == front + [last];
      assert multiset(audits) == multiset(front) + multiset{last};
      AddAuditsKeepsAudits(m, front);
    }
  }

  /** After at least one `AddAudit` the history is sorted by time stamp. */
  lemma AddAuditsSorted(m: ScriptMetadata, audits: seq<Audit>)
    requires audits != []
    ensures SortedBy(AddAudits(m, audits).history, AuditTime, TimeLe)
  {
    AddAuditSortsStably(AddAudits(m, audits[..|audits| - 1]), audits[|audits| - 1]);
  }

  lemma AddAuditStable(m: ScriptMetadata, a: Audit)
    ensures Stable(AddAudit(m, a).history, m.history + [a], AuditTime, TimeLe)
  {
    AddAuditSortsStably(m, a);
  }

  lemma AddAuditStableStep(m: ScriptMetadata, audits: seq<Audit>)
    requires audits != []
    requires Stable(AddAudits(m, audits[..|audits| - 1]).history, m.history + audits[..|audits| - 1], AuditTime, TimeLe)
    ensures Stable(AddAudits(m, audits).history, m.history + audits, AuditTime, TimeLe)
  {
    var front := audits[..|audits| - 1];
    var last := audits[|audits| - 1];
    var init := AddAudits(m, front);
    AddAuditStable(init, last);
    StableSnoc(init.history, AddAudit(init, last).history, m.history + front, last, AuditTime, TimeLe);
    assert m.history + audits == (m.history + front) + [last];
  }

  /** Audits with equal time stamps stay in the order they were recorded and then added. */
  lemma {:induction false} AddAuditsStable(m: ScriptMetadata, audits: seq<Audit>)
    ensures Stable(AddAudits(m, audits).history, m.history + audits, AuditTime, TimeLe)
    decreases |audits|
  {
    if audits == [] {
      assert m.history + audits == m.history;
    } else {
      AddAuditsStable(m, audits[..|audits| - 1]);
      AddAuditStableStep(m, audits);
    }
  }
}
