/**
 * What one run of the versioned migration computes from the stored
 * roster, the stored ledger and the seed list, and what it guarantees.
 */
module Migration {
  import opened Wrappers
  import opened Types
  import opened Rolls
  import opened Ledger
  import opened Roster

  /** `normalizedStudents`. */
  function RetainedOf(students: seq<Student>, seed: seq<SeedEntry>): seq<Student> {
    Retained(students, SeedRolls(seed))
  }

  /** `mergedStudents`: the retained students followed by the additions. */
  function Merged(students: seq<Student>, seed: seq<SeedEntry>, now: nat): seq<Student> {
    var retained := RetainedOf(students, seed);
    retained + Additions(seed, NameKeys(retained), now, |seed|)
  }

  /** The ledger after the run: pruned to the retained ids only when the roster size changed. */
  function MigratedLedger(students: seq<Student>, att: AttendanceData, seed: seq<SeedEntry>, now: nat): AttendanceData {
    if |Merged(students, seed, now)| != |students| then Prune(att, IdsOf(RetainedOf(students, seed))) else att
  }

  /** The roster the run stores: the merged roster after the migration's sort. */
  function MigratedRoster(students: seq<Student>, seed: seq<SeedEntry>, now: nat): seq<Student> {
    SortBy(MigrationOrder, Merged(students, seed, now))
  }

  /** The stored roster is a permutation of the merged one. */
  lemma MigratedRosterPermutation(students: seq<Student>, seed: seq<SeedEntry>, now: nat)
    ensures multiset(MigratedRoster(students, seed, now)) == multiset(Merged(students, seed, now))
  {
  }

  /** After the run every seed name is represented in the stored roster. */
  lemma MigratedRosterCoversSeed(students: seq<Student>, seed: seq<SeedEntry>, now: nat)
    ensures forall i :: 0 <= i < |seed| ==> NameKey(seed[i].name) in NameKeys(MigratedRoster(students, seed, now))
  {
    var merged := Merged(students, seed, now);
    var r := MigratedRoster(students, seed, now);
    EverySeedNameRepresented(students, seed, now);
    forall i | 0 <= i < |seed| ensures NameKey(seed[i].name) in NameKeys(r) {
      assert NameKey(seed[i].name) in NameKeys(merged);
      var x :| x in merged && NameKey(x.name) == NameKey(seed[i].name);
      assert x in multiset(merged);
      assert x in multiset(r);
    }
  }

  /** When every merged label has a digit, the stored roster is in nondecreasing numeric order. */
  lemma MigratedRosterNumericOrder(students: seq<Student>, seed: seq<SeedEntry>, now: nat)
    requires forall s :: s in Merged(students, seed, now) ==> HasDigit(s.rollNumber)
    ensures NumericallyOrdered(MigratedRoster(students, seed, now))
  {
    MigrationSortSpec(Merged(students, seed, now));
  }

  /**
   * When the run prunes, every date stays, no day keeps an id outside the
   * retained ones, and surviving records keep their status; otherwise the
   * ledger is untouched, even if a dropped student was balanced by an addition.
   */
  lemma MigratedLedgerSpec(students: seq<Student>, att: AttendanceData, seed: seq<SeedEntry>, now: nat)
    ensures |Merged(students, seed, now)| == |students| ==> MigratedLedger(students, att, seed, now) == att
    ensures |Merged(students, seed, now)| != |students| ==>
      var valid := IdsOf(RetainedOf(students, seed));
      var r := MigratedLedger(students, att, seed, now);
      && r.Keys == att.Keys
      && (forall d :: d in r ==> r[d].Keys <= valid)
      && (forall d, k :: StatusOf(r, d, k) == if k in valid then StatusOf(att, d, k) else None)
  {
    PruneSpec(att, IdsOf(RetainedOf(students, seed)));
  }
}
