/**
 * Roster reconciliation against the seed list: the name -> roll lookup,
 * the retained and relabelled stored students, the synthesized additions,
 * the one-shot seeding of an empty roster, and `removeStudent`'s filter.
 */
module Roster {
  import opened Wrappers
  import opened Text
  import opened Types

  /** The version the migration brings the data to. */
  const CurrentVersion: string := "4"

  /** `nameToRoll`: normalized seed name -> seed roll, later entries overwriting earlier ones. */
  function SeedRolls(seed: seq<SeedEntry>): map<string, string> {
    if seed == [] then map[]
    else
      var last := seed[|seed| - 1];
      SeedRolls(seed[..|seed| - 1])[NameKey(last.name) := last.rollNumber]
  }

  /** A name has an entry exactly when some seed entry normalizes to it. */
  lemma {:induction false} SeedRollsKeys(seed: seq<SeedEntry>)
    ensures forall k :: k in SeedRolls(seed) <==> exists i :: 0 <= i < |seed| && NameKey(seed[i].name) == k
  {
    if seed != [] {
      var init := seed[..|seed| - 1];
      var lastKey := NameKey(seed[|seed| - 1].name);
      SeedRollsKeys(init);
      assert SeedRolls(seed).Keys == SeedRolls(init).Keys + {lastKey};
      forall k ensures k in SeedRolls(seed) <==> exists i :: 0 <= i < |seed| && NameKey(seed[i].name) == k {
        if k in SeedRolls(init) {
          var i :| 0 <= i < |init| && NameKey(init[i].name) == k;
          assert seed[i] == init[i];
        }
        if exists i :: 0 <= i < |seed| && NameKey(seed[i].name) == k {
          var i :| 0 <= i < |seed| && NameKey(seed[i].name) == k;
          if i < |init| {
            assert init[i] == seed[i];
          }
        }
      }
    }
  }

  /** The roll stored for a name is that of the last seed entry normalizing to it. */
  lemma {:induction false} SeedRollsLastWins(seed: seq<SeedEntry>, i: nat)
    requires i < |seed|
    requires forall j :: i < j < |seed| ==> NameKey(seed[j].name) != NameKey(seed[i].name)
    ensures NameKey(seed[i].name) in SeedRolls(seed)
    ensures SeedRolls(seed)[NameKey(seed[i].name)] == seed[i].rollNumber
  {
    if i < |seed| - 1 {
      var init := seed[..|seed| - 1];
      assert init[i] == seed[i];
      forall j | i < j < |init| ensures NameKey(init[j].name) != NameKey(init[i].name) {
        assert init[j] == seed[j];
      }
      SeedRollsLastWins(init, i);
    }
  }

  /** The stored student's key is one of the seed's names. */
  predicate InSeed(s: Student, rolls: map<string, string>) {
    NameKey(s.name) in rolls
  }

  /** `{...s, rollNumber: nameToRoll.get(key) || s.rollNumber}`. */
  function Relabel(s: Student, rolls: map<string, string>): (r: Student)
    requires InSeed(s, rolls)
    ensures r.id == s.id && r.name == s.name && r.photo == s.photo
    ensures r.rollNumber == if rolls[NameKey(s.name)] != "" then rolls[NameKey(s.name)] else s.rollNumber
  {
    var seedRoll := rolls[NameKey(s.name)];
    s.(rollNumber := if seedRoll != "" then seedRoll else s.rollNumber)
  }

  /** `normalizedStudents`: the stored students present in the seed, relabelled, in stored order. */
  function Retained(students: seq<Student>, rolls: map<string, string>): seq<Student> {
    if students == [] then [] else RetainOne(students[0], rolls) + Retained(students[1..], rolls)
  }

  /** What the filter-and-map keeps of one stored student. */
  function RetainOne(s: Student, rolls: map<string, string>): seq<Student> {
    if InSeed(s, rolls) then [Relabel(s, rolls)] else []
  }

  /** A student is retained exactly when it is the relabelling of a stored student whose name is a seed key. */
  lemma {:induction false} RetainedMembers(students: seq<Student>, rolls: map<string, string>)
    ensures forall x :: x in Retained(students, rolls) <==>
      exists y :: y in students && InSeed(y, rolls) && x == Relabel(y, rolls)
    ensures forall x :: x in Retained(students, rolls) ==> InSeed(x, rolls)
    ensures |Retained(students, rolls)| <= |students|
  {
    if students != [] {
      RetainedMembers(students[1..], rolls);
      forall y | y in students && InSeed(y, rolls) ensures Relabel(y, rolls) in Retained(students, rolls) {
        if y != students[0] {
          assert y in students[1..];
        }
      }
    }
  }

  /** Retaining distributes over concatenation, so it keeps the stored order. */
  lemma {:induction false} RetainedConcat(a: seq<Student>, b: seq<Student>, rolls: map<string, string>)
    ensures Retained(a + b, rolls) == Retained(a, rolls) + Retained(b, rolls)
  {
    if a == [] {
      assert a + b == b;
    } else {
      var head := RetainOne(a[0], rolls);
      assert (a + b)[0] == a[0];
      assert (a + b)[1..] == a[1..] + b;
      RetainedConcat(a[1..], b, rolls);
      calc {
        Retained(a + b, rolls);
        head + Retained(a[1..] + b, rolls);
        head + (Retained(a[1..], rolls) + Retained(b, rolls));
        (head + Retained(a[1..], rolls)) + Retained(b, rolls);
      }
    }
  }

  /** When every stored name is in the seed, nothing is dropped: the ids and their order are kept. */
  lemma {:induction false} RetainedKeepsAll(students: seq<Student>, rolls: map<string, string>)
    requires forall s :: s in students ==> InSeed(s, rolls)
    ensures |Retained(students, rolls)| == |students|
    ensures forall i :: 0 <= i < |students| ==> Retained(students, rolls)[i] == Relabel(students[i], rolls)
  {
    if students != [] {
      RetainedKeepsAll(students[1..], rolls);
    }
  }

  /** `existingNameSet`: the keys of the retained students. */
  function NameKeys(students: seq<Student>): set<string> {
    set s | s in students :: NameKey(s.name)
  }

  /** The id the migration gives the seed entry at `idx`: `seed_${Date.now()}_${idx}`. */
  function SeedStudentId(now: nat, idx: nat): string {
    "seed_" + NatToString(now) + "_" + NatToString(idx)
  }

  function SeedStudent(entry: SeedEntry, now: nat, idx: nat): Student {
    Student(SeedStudentId(now, idx), entry.name, entry.rollNumber, None)
  }

  /** `additions` after the first `n` seed entries: one per entry whose key is not among `existing`. */
  function Additions(seed: seq<SeedEntry>, existing: set<string>, now: nat, n: nat): seq<Student>
    requires n <= |seed|
  {
    if n == 0 then []
    else
      Additions(seed, existing, now, n - 1)
      + (if NameKey(seed[n - 1].name) !in existing then [SeedStudent(seed[n - 1], now, n - 1)] else [])
  }

  /** Ids that share the clock reading differ exactly when their indices differ. */
  lemma SeedStudentIdInjective(now: nat, i: nat, j: nat)
    ensures SeedStudentId(now, i) == SeedStudentId(now, j) ==> i == j
  {
    var p := "seed_" + NatToString(now) + "_";
    assert SeedStudentId(now, i) == p + NatToString(i);
    assert SeedStudentId(now, j) == p + NatToString(j);
    if SeedStudentId(now, i) == SeedStudentId(now, j) {
      assert NatToString(i) == (p + NatToString(i))[|p|..];
      assert NatToString(j) == (p + NatToString(j))[|p|..];
      NatToStringInjective(i, j);
    }
  }

  /**
   * The additions are exactly one student per seed entry whose key is missing
   * (duplicates included), carrying that entry's name and roll and an id of
   * its own index.
   */
  lemma {:induction false} AdditionsMembers(seed: seq<SeedEntry>, existing: set<string>, now: nat, n: nat)
    requires n <= |seed|
    ensures forall x :: x in Additions(seed, existing, now, n) <==>
      exists i :: 0 <= i < n && NameKey(seed[i].name) !in existing && x == SeedStudent(seed[i], now, i)
  {
    if n > 0 {
      AdditionsMembers(seed, existing, now, n - 1);
    }
  }

  /** The additions carry pairwise distinct ids, so none is listed twice. */
  lemma {:induction false} AdditionsDistinctIds(seed: seq<SeedEntry>, existing: set<string>, now: nat, n: nat)
    requires n <= |seed|
    ensures forall p, q :: 0 <= p < q < |Additions(seed, existing, now, n)| ==>
      Additions(seed, existing, now, n)[p].id != Additions(seed, existing, now, n)[q].id
  {
    if n > 0 {
      AdditionsDistinctIds(seed, existing, now, n - 1);
      AdditionsMembers(seed, existing, now, n - 1);
      var prev := Additions(seed, existing, now, n - 1);
      var r := Additions(seed, existing, now, n);
      forall p, q | 0 <= p < q < |r| ensures r[p].id != r[q].id {
        if q >= |prev| {
          assert r[p] == prev[p];
          assert r[p] in prev;
          var i :| 0 <= i < n - 1 && NameKey(seed[i].name) !in existing && r[p] == SeedStudent(seed[i], now, i);
          SeedStudentIdInjective(now, i, n - 1);
        } else {
          assert r[p] == prev[p] && r[q] == prev[q];
        }
      }
    }
  }

  /**
   * The merged roster names every seed entry: a key already retained is
   * represented by a stored student, any other key by an addition.
   */
  lemma EverySeedNameRepresented(students: seq<Student>, seed: seq<SeedEntry>, now: nat)
    ensures var retained := Retained(students, SeedRolls(seed));
      var merged := retained + Additions(seed, NameKeys(retained), now, |seed|);
      forall i :: 0 <= i < |seed| ==> NameKey(seed[i].name) in NameKeys(merged)
  {
    var retained := Retained(students, SeedRolls(seed));
    var additions := Additions(seed, NameKeys(retained), now, |seed|);
    var merged := retained + additions;
    AdditionsMembers(seed, NameKeys(retained), now, |seed|);
    forall i | 0 <= i < |seed| ensures NameKey(seed[i].name) in NameKeys(merged) {
      if NameKey(seed[i].name) in NameKeys(retained) {
        var x :| x in retained && NameKey(x.name) == NameKey(seed[i].name);
        assert x in merged;
      } else {
        var x := SeedStudent(seed[i], now, i);
        assert x in additions;
        assert x in merged;
      }
    }
  }

  /** The roster the seeding effect creates: `${Date.now()}_${idx}` ids, seed names and rolls. */
  function SeededRoster(seed: seq<SeedEntry>, now: nat): seq<Student> {
    seq(|seed|, i requires 0 <= i < |seed| => Student(NatToString(now) + "_" + NatToString(i), seed[i].name, seed[i].rollNumber, None))
  }

  /** Seeding gives one student per entry, in seed order, with pairwise distinct ids. */
  lemma SeededRosterSpec(seed: seq<SeedEntry>, now: nat)
    ensures |SeededRoster(seed, now)| == |seed|
    ensures forall i :: 0 <= i < |seed| ==>
      SeededRoster(seed, now)[i].name == seed[i].name && SeededRoster(seed, now)[i].rollNumber == seed[i].rollNumber
    ensures forall i, j :: 0 <= i < j < |seed| ==> SeededRoster(seed, now)[i].id != SeededRoster(seed, now)[j].id
  {
    var r := SeededRoster(seed, now);
    var p := NatToString(now) + "_";
    forall i, j | 0 <= i < j < |seed| ensures r[i].id != r[j].id {
      assert r[i].id == p + NatToString(i) && r[j].id == p + NatToString(j);
      if r[i].id == r[j].id {
        assert NatToString(i) == r[i].id[|p|..];
        assert NatToString(j) == r[j].id[|p|..];
        NatToStringInjective(i, j);
      }
    }
  }

  /** `students.filter(student => student.id !== id)`. */
  function RemoveById(students: seq<Student>, id: string): seq<Student> {
    if students == [] then []
    else (if students[0].id != id then [students[0]] else []) + RemoveById(students[1..], id)
  }

  /** Exactly the students with that id go; every other student keeps its multiplicity. */
  lemma {:induction false} RemoveByIdSpec(students: seq<Student>, id: string)
    ensures forall x :: multiset(RemoveById(students, id))[x] == if x.id == id then 0 else multiset(students)[x]
    ensures id !in IdsOf(students) ==> RemoveById(students, id) == students
  {
    if students != [] {
      RemoveByIdSpec(students[1..], id);
      assert students == [students[0]] + students[1..];
      if id !in IdsOf(students) {
        assert IdsOf(students[1..]) <= IdsOf(students);
      }
    }
  }

  /** Removal distributes over concatenation, so the remaining students keep their order. */
  lemma {:induction false} RemoveByIdConcat(a: seq<Student>, b: seq<Student>, id: string)
    ensures RemoveById(a + b, id) == RemoveById(a, id) + RemoveById(b, id)
  {
    if a == [] {
      assert a + b == b;
    } else {
      var head := if a[0].id != id then [a[0]] else [];
      assert (a + b)[0] == a[0];
      assert (a + b)[1..] == a[1..] + b;
      RemoveByIdConcat(a[1..], b, id);
      assert RemoveById(a + b, id) == head + (RemoveById(a[1..], id) + RemoveById(b, id));
    }
  }
}
