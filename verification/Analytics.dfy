/** Progress records, their two indexes and milestones as a machine over
    storage. */
module AnalyticsMachine {
  import opened Panics
  import opened Host
  import opened Integers
  import opened Lists

  const MILESTONES: seq<u32> := [25, 50, 75, 100]

  datatype ProgressRecord = ProgressRecord(student: Address, course: Symbol, pct: u32, completed: bool, timestamp: u64)

  type Key = (Address, Symbol)

  /** Whether a milestone is due for a progress and not there yet. */
  predicate Due(achieved: seq<u32>, pct: u32, m: u32)
  {
    pct >= m && m !in achieved
  }

  /** The achieved list after looking at the first n milestones. */
  function Achieve(achieved: seq<u32>, pct: u32, n: nat): seq<u32>
    requires n <= |MILESTONES|
  {
    if n == 0 then achieved else
      var before := Achieve(achieved, pct, n - 1);
      if Due(before, pct, MILESTONES[n - 1]) then before + [MILESTONES[n - 1]] else before
  }

  /** The milestone times after looking at the first n milestones. */
  function AchieveTimes(times: map<(Key, u32), u64>, key: Key, achieved: seq<u32>, pct: u32, now: u64, n: nat)
    : map<(Key, u32), u64>
    requires n <= |MILESTONES|
  {
    if n == 0 then times else
      var before := AchieveTimes(times, key, achieved, pct, now, n - 1);
      if Due(Achieve(achieved, pct, n - 1), pct, MILESTONES[n - 1]) then before[(key, MILESTONES[n - 1]) := now] else before
  }

  /** The stored records under a list of keys, in its order. */
  function Existing(records: map<Key, ProgressRecord>, keys: seq<Key>): seq<ProgressRecord>
  {
    if keys == [] then [] else
      var n := |keys| - 1;
      Existing(records, keys[..n]) + (if keys[n] in records then [records[keys[n]]] else [])
  }

  datatype Analytics = Analytics(
    records: map<Key, ProgressRecord>,
    courses: map<Address, seq<Symbol>>,
    students: map<Symbol, seq<Address>>,
    milestones: map<Key, seq<u32>>,
    times: map<(Key, u32), u64>)
  {
    function Courses(student: Address): seq<Symbol>
    {
      if student in courses then courses[student] else []
    }

    function Students(course: Symbol): seq<Address>
    {
      if course in students then students[course] else []
    }

    function Achieved(student: Address, course: Symbol): seq<u32>
    {
      if (student, course) in milestones then milestones[(student, course)] else []
    }

    function Record(student: Address, course: Symbol, pct: u32, now: u64): Option<(Analytics, ())>
    {
      var _ :- Require(pct <= 100);
      var key := (student, course);
      var achieved := Achieved(student, course);
      Some((Analytics(
        records[key := ProgressRecord(student, course, pct, pct == 100, now)],
        if course in Courses(student) then courses else courses[student := Courses(student) + [course]],
        if student in Students(course) then students else students[course := Students(course) + [student]],
        milestones[key := Achieve(achieved, pct, |MILESTONES|)],
        AchieveTimes(times, key, achieved, pct, now, |MILESTONES|)), ()))
    }

    function Reset(student: Address, course: Symbol): Option<(Analytics, ())>
    {
      Some((this.(records := records - {(student, course)},
                  courses := if student in courses then courses[student := RemoveFirst(courses[student], course)]
                             else courses), ()))
    }

    function CourseKeys(course: Symbol): (keys: seq<Key>)
    {
      seq(|Students(course)|, i requires 0 <= i < |Students(course)| => (Students(course)[i], course))
    }

    function StudentKeys(student: Address): (keys: seq<Key>)
    {
      seq(|Courses(student)|, i requires 0 <= i < |Courses(student)| => (student, Courses(student)[i]))
    }

    function CourseProgress(course: Symbol): seq<ProgressRecord>
    {
      Existing(records, CourseKeys(course))
    }

    function AllProgress(student: Address): seq<ProgressRecord>
    {
      Existing(records, StudentKeys(student))
    }
  }

  const INITIAL := Analytics(map[], map[], map[], map[], map[])

  datatype Call =
    | RecordProgress(student: Address, course: Symbol, pct: u32, now: u64)
    | ResetProgress(student: Address, course: Symbol)

  function After<T>(before: Analytics, result: Option<(Analytics, T)>): Analytics
  {
    if result.Some? then result.value.0 else before
  }

  function Step(s: Analytics, call: Call): Analytics
  {
    match call
    case RecordProgress(student, course, pct, now) => After(s, s.Record(student, course, pct, now))
    case ResetProgress(student, course) => After(s, s.Reset(student, course))
  }

  function Run(s: Analytics, calls: seq<Call>): Analytics
    decreases |calls|
  {
    if calls == [] then s else Run(Step(s, calls[0]), calls[1..])
  }
}

/** What the indexes and the milestones say on every run. */
module AnalyticsSafety {
  import opened Panics
  import opened Host
  import opened Integers
  import opened Lists
  import opened AnalyticsMachine

  ghost predicate RecordSound(s: Analytics, key: Key)
    requires key in s.records
  {
    var r := s.records[key];
    r.student == key.0 && r.course == key.1 && r.pct <= 100 && (r.completed <==> r.pct == 100)
  }

  /** A student's list is exactly the courses with a record, each once. */
  ghost predicate ForwardExact(s: Analytics, student: Address)
  {
    && NoDuplicates(s.Courses(student))
    && forall course :: course in s.Courses(student) <==> (student, course) in s.records
  }

  /** A course's list has no student twice and every student with a record;
      it keeps students whose record was reset. */
  ghost predicate ReverseCovers(s: Analytics, course: Symbol)
  {
    && NoDuplicates(s.Students(course))
    && forall student :: (student, course) in s.records ==> student in s.Students(course)
  }

  ghost predicate Indexed(s: Analytics)
  {
    && (forall key :: key in s.records ==> RecordSound(s, key))
    && (forall student :: ForwardExact(s, student))
    && (forall course :: ReverseCovers(s, course))
  }

  lemma RecordKeepsIndexed(s: Analytics, student: Address, course: Symbol, pct: u32, now: u64)
    requires Indexed(s) && pct <= 100
    ensures Indexed(s.Record(student, course, pct, now).value.0)
  {
    var next := s.Record(student, course, pct, now).value.0;
    forall a
      ensures ForwardExact(next, a)
    {
      assert ForwardExact(s, a);
    }
    forall c
      ensures ReverseCovers(next, c)
    {
      assert ReverseCovers(s, c);
    }
    forall key | key in next.records
      ensures RecordSound(next, key)
    {
      if key != (student, course) { assert RecordSound(s, key); }
    }
  }

  lemma ResetKeepsIndexed(s: Analytics, student: Address, course: Symbol)
    requires Indexed(s)
    ensures Indexed(s.Reset(student, course).value.0)
  {
    var next := s.Reset(student, course).value.0;
    forall a
      ensures ForwardExact(next, a)
    {
      assert ForwardExact(s, a);
      if a == student { RemoveFirstElements(s.Courses(student), course); }
    }
    forall c
      ensures ReverseCovers(next, c)
    {
      assert ReverseCovers(s, c);
    }
    forall key | key in next.records
      ensures RecordSound(next, key)
    {
      assert RecordSound(s, key);
    }
  }

  /** In every reachable state of records and resets the forward index is
      exact and the reverse index duplicate-free and covering. */
  lemma {:induction false} RunKeepsIndexed(s: Analytics, calls: seq<Call>)
    requires Indexed(s)
    ensures Indexed(Run(s, calls))
    decreases |calls|
  {
    if calls != [] {
      match calls[0] {
        case RecordProgress(student, course, pct, now) =>
          if pct <= 100 { RecordKeepsIndexed(s, student, course, pct, now); }
        case ResetProgress(student, course) => ResetKeepsIndexed(s, student, course);
      }
      RunKeepsIndexed(Step(s, calls[0]), calls[1..]);
    }
  }

  // ---- queries --------------------------------------------------------------

  lemma {:induction false} ExistingExact(s: Analytics, keys: seq<Key>)
    requires forall key :: key in s.records ==> RecordSound(s, key)
    requires NoDuplicates(keys)
    ensures NoDuplicates(Existing(s.records, keys))
    ensures forall r :: r in Existing(s.records, keys) <==>
              (r.student, r.course) in keys && (r.student, r.course) in s.records && s.records[(r.student, r.course)] == r
    ensures (forall key :: key in keys ==> key in s.records) ==> |Existing(s.records, keys)| == |keys|
  {
    if keys != [] {
      var n := |keys| - 1;
      var front, last := keys[..n], keys[n];
      ExistingExact(s, front);
      assert forall key :: key in keys <==> key in front || key == last;
      assert last !in front;
      if last in s.records { assert RecordSound(s, last); }
    }
  }

  /** A course query returns each existing record of the course exactly once,
      whatever the reverse index still remembers. */
  lemma CourseProgressExact(s: Analytics, course: Symbol)
    requires Indexed(s)
    ensures NoDuplicates(s.CourseProgress(course))
    ensures forall r :: r in s.CourseProgress(course) <==>
              r.course == course && (r.student, course) in s.records && s.records[(r.student, course)] == r
  {
    assert ReverseCovers(s, course);
    var keys := s.CourseKeys(course);
    assert forall i :: 0 <= i < |keys| ==> keys[i] == (s.Students(course)[i], course);
    ExistingExact(s, keys);
    forall r: ProgressRecord | r.course == course && (r.student, course) in s.records
      ensures (r.student, course) in keys
    {
      var i :| 0 <= i < |s.Students(course)| && s.Students(course)[i] == r.student;
      assert keys[i] == (r.student, course);
    }
  }

  /** A student query returns each of the student's records exactly once, and
      skips nothing on its list. */
  lemma AllProgressExact(s: Analytics, student: Address)
    requires Indexed(s)
    ensures NoDuplicates(s.AllProgress(student)) && |s.AllProgress(student)| == |s.Courses(student)|
    ensures forall r :: r in s.AllProgress(student) <==>
              r.student == student && (student, r.course) in s.records && s.records[(student, r.course)] == r
  {
    assert ForwardExact(s, student);
    var keys := s.StudentKeys(student);
    assert forall i :: 0 <= i < |keys| ==> keys[i] == (student, s.Courses(student)[i]);
    ExistingExact(s, keys);
    forall r: ProgressRecord | r.student == student && (student, r.course) in s.records
      ensures (student, r.course) in keys
    {
      var i :| 0 <= i < |s.Courses(student)| && s.Courses(student)[i] == r.course;
      assert keys[i] == (student, r.course);
    }
  }

  // ---- milestones -----------------------------------------------------------

  /** The milestones up to a progress, in order. */
  function Reached(best: int): seq<u32>
  {
    if best >= 100 then [25, 50, 75, 100]
    else if best >= 75 then [25, 50, 75]
    else if best >= 50 then [25, 50]
    else if best >= 25 then [25]
    else []
  }

  /** It is the prefix of the milestone table that the progress has reached. */
  lemma ReachedIsPrefix(best: int)
    ensures Reached(best) <= MILESTONES
    ensures forall i :: 0 <= i < |MILESTONES| ==> (i < |Reached(best)| <==> MILESTONES[i] <= best)
  {
    assert MILESTONES[0] == 25 && MILESTONES[1] == 50 && MILESTONES[2] == 75 && MILESTONES[3] == 100;
  }

  lemma NextMilestone(best: int, pct: u32, n: nat)
    requires 0 < n <= 4
    ensures var before := Reached(Max(best, Min(pct, 25 * n - 1)));
      Reached(Max(best, Min(pct, 25 * n + 24)))
        == if pct >= 25 * n && 25 * n !in before then before + [25 * n] else before
  {
    assert n == 1 || n == 2 || n == 3 || n == 4;
  }

  /** Looking at the first n milestones brings the list up to the progress as
      far as they go. */
  lemma {:induction false} AchieveUpTo(best: int, pct: u32, n: nat)
    requires n <= |MILESTONES|
    ensures Achieve(Reached(best), pct, n) == Reached(Max(best, Min(pct, 25 * n + 24)))
  {
    if n > 0 {
      AchieveUpTo(best, pct, n - 1);
      assert MILESTONES[n - 1] == 25 * n by {
        assert MILESTONES[0] == 25 && MILESTONES[1] == 50 && MILESTONES[2] == 75 && MILESTONES[3] == 100;
      }
      NextMilestone(best, pct, n);
    }
  }

  lemma AchieveIsReached(best: int, pct: u32)
    ensures Achieve(Reached(best), pct, |MILESTONES|) == Reached(Max(best, pct))
  {
    AchieveUpTo(best, pct, |MILESTONES|);
  }

  /** The largest progress that the accepted records of a run set for a student
      in a course, -1 if there are none. */
  function Best(calls: seq<Call>, student: Address, course: Symbol): int
  {
    if calls == [] then -1 else
      var c := calls[0];
      var rest := Best(calls[1..], student, course);
      if c.RecordProgress? && c.student == student && c.course == course && c.pct <= 100
      then Max(c.pct, rest) else rest
  }

  /** Milestones and the reverse index remember the whole run, across resets:
      the achieved milestones are those up to the largest progress ever
      recorded, and a student is on a course's list exactly when it ever had a
      progress there. */
  lemma {:induction false} HistoryRemembered(s: Analytics, calls: seq<Call>, student: Address, course: Symbol, best: int)
    requires best >= -1 && s.Achieved(student, course) == Reached(best)
    requires student in s.Students(course) <==> best >= 0
    ensures var t, b := Run(s, calls), Max(best, Best(calls, student, course));
      && t.Achieved(student, course) == Reached(b)
      && (student in t.Students(course) <==> b >= 0)
    decreases |calls|
  {
    if calls != [] {
      var c := calls[0];
      var hit := c.RecordProgress? && c.student == student && c.course == course && c.pct <= 100;
      if hit { AchieveIsReached(best, c.pct); }
      HistoryRemembered(Step(s, c), calls[1..], student, course, if hit then Max(best, c.pct) else best);
    }
  }

  lemma InitialHistory(calls: seq<Call>, student: Address, course: Symbol)
    ensures Indexed(Run(INITIAL, calls))
    ensures Run(INITIAL, calls).Achieved(student, course) == Reached(Best(calls, student, course))
    ensures student in Run(INITIAL, calls).Students(course) <==> Best(calls, student, course) >= 0
  {
    RunKeepsIndexed(INITIAL, calls);
    HistoryRemembered(INITIAL, calls, student, course, -1);
    BestFloor(calls, student, course);
  }

  lemma {:induction false} BestFloor(calls: seq<Call>, student: Address, course: Symbol)
    ensures Best(calls, student, course) >= -1
  {
    if calls != [] { BestFloor(calls[1..], student, course); }
  }

  /** A milestone has a time exactly when it is on the achieved list, and a
      time once set is never overwritten. */
  ghost predicate TimesExact(s: Analytics)
  {
    forall student, course, m :: ((student, course), m) in s.times <==> m in s.Achieved(student, course)
  }

  lemma {:induction false} AchieveTimesExact(times: map<(Key, u32), u64>, key: Key, achieved: seq<u32>, pct: u32, now: u64, n: nat)
    requires n <= |MILESTONES|
    requires forall m :: (key, m) in times <==> m in achieved
    ensures var after := AchieveTimes(times, key, achieved, pct, now, n);
      && (forall m :: (key, m) in after <==> m in Achieve(achieved, pct, n))
      && (forall k :: k in times ==> k in after && after[k] == times[k])
      && (forall k :: k in after && k.0 != key ==> k in times)
  {
    if n > 0 {
      AchieveTimesExact(times, key, achieved, pct, now, n - 1);
    }
  }

  lemma {:induction false} RunKeepsTimes(s: Analytics, calls: seq<Call>)
    requires TimesExact(s)
    ensures TimesExact(Run(s, calls))
    ensures forall k :: k in s.times ==> k in Run(s, calls).times && Run(s, calls).times[k] == s.times[k]
    decreases |calls|
  {
    if calls != [] {
      var c := calls[0];
      if c.RecordProgress? && c.pct <= 100 {
        AchieveTimesExact(s.times, (c.student, c.course), s.Achieved(c.student, c.course), c.pct, c.now, |MILESTONES|);
      }
      RunKeepsTimes(Step(s, c), calls[1..]);
    }
  }

  // ---- what is on record ----------------------------------------------------

  /** Progress and time of the last accepted record since the last reset. */
  function Latest(calls: seq<Call>, key: Key, before: Option<(u32, u64)>): Option<(u32, u64)>
  {
    if calls == [] then before else
      var c := calls[0];
      var now :=
        if (c.student, c.course) != key then before
        else if c.ResetProgress? then None
        else if c.pct <= 100 then Some((c.pct, c.now)) else before;
      Latest(calls[1..], key, now)
  }

  function OnRecord(s: Analytics, key: Key): Option<(u32, u64)>
  {
    if key in s.records then Some((s.records[key].pct, s.records[key].timestamp)) else None
  }

  /** Over every run a record holds what was last recorded, and there is none
      exactly when nothing was since the last reset. */
  lemma {:induction false} RecordIsLatest(s: Analytics, calls: seq<Call>, key: Key)
    ensures OnRecord(Run(s, calls), key) == Latest(calls, key, OnRecord(s, key))
    decreases |calls|
  {
    if calls != [] {
      RecordIsLatest(Step(s, calls[0]), calls[1..], key);
    }
  }

  /** So from the empty contract on, with its student, its course and whether
      it is complete. */
  lemma InitialRecord(calls: seq<Call>, key: Key)
    ensures var s, latest := Run(INITIAL, calls), Latest(calls, key, None);
      && (key in s.records <==> latest.Some?)
      && (latest.Some? ==> s.records[key] == ProgressRecord(key.0, key.1, latest.value.0, latest.value.0 == 100, latest.value.1))
  {
    RecordIsLatest(INITIAL, calls, key);
    RunKeepsIndexed(INITIAL, calls);
    var s := Run(INITIAL, calls);
    if key in s.records { assert RecordSound(s, key); }
  }

  /** A student's courses stand in the order in which they came, those reset
      taken out, and a course's students in the order of their first records;
      a record with more than 100 percent is refused. */
  lemma RecordExact(s: Analytics, student: Address, course: Symbol, pct: u32, now: u64)
    ensures s.Record(student, course, pct, now).Some? <==> pct <= 100
    ensures s.Record(student, course, pct, now).Some? ==>
      var t := s.Record(student, course, pct, now).value.0;
      && t.Courses(student) == s.Courses(student) + (if course in s.Courses(student) then [] else [course])
      && t.Students(course) == s.Students(course) + (if student in s.Students(course) then [] else [student])
      && (forall a :: a != student ==> t.Courses(a) == s.Courses(a))
      && (forall c :: c != course ==> t.Students(c) == s.Students(c))
      && (forall k :: k != (student, course) ==> t.Achieved(k.0, k.1) == s.Achieved(k.0, k.1))
      && (forall k :: k != (student, course) ==> OnRecord(t, k) == OnRecord(s, k))
  {
  }

  lemma ResetExact(s: Analytics, student: Address, course: Symbol)
    ensures s.Reset(student, course).Some?
    ensures var t := s.Reset(student, course).value.0;
      && t.records == s.records - {(student, course)}
      && t.students == s.students && t.milestones == s.milestones && t.times == s.times
      && (forall a :: a != student ==> t.Courses(a) == s.Courses(a))
      && (course !in s.Courses(student) ==> t.Courses(student) == s.Courses(student))
      && (course in s.Courses(student) ==>
            exists i :: 0 <= i < |s.Courses(student)| && s.Courses(student)[i] == course
                        && t.Courses(student) == s.Courses(student)[..i] + s.Courses(student)[i + 1..])
  {
    var courses := s.Courses(student);
    if course in courses {
      var i := FirstPosition(courses, course);
      RemoveFirstAt(courses, course, i);
    } else {
      RemoveFirstAbsent(courses, course);
    }
  }

  /** When a progress of at least m was first recorded. */
  function FirstReached(calls: seq<Call>, key: Key, m: u32): Option<u64>
  {
    if calls == [] then None else
      var c := calls[0];
      if c.RecordProgress? && (c.student, c.course) == key && m <= c.pct <= 100 then Some(c.now)
      else FirstReached(calls[1..], key, m)
  }

  function TimeOf(s: Analytics, key: Key, m: u32): Option<u64>
  {
    if (key, m) in s.times then Some(s.times[(key, m)]) else None
  }

  /** Over every run the time of a milestone is that of the first record that
      reached it. */
  lemma {:induction false} TimeIsFirst(s: Analytics, calls: seq<Call>, key: Key, m: u32)
    requires TimesExact(s) && m in MILESTONES
    ensures TimeOf(Run(s, calls), key, m) ==
      if TimeOf(s, key, m).Some? then TimeOf(s, key, m) else FirstReached(calls, key, m)
    decreases |calls|
  {
    if calls != [] {
      StepTime(s, calls[0], key, m);
      RunKeepsTimes(s, [calls[0]]);
      assert Run(s, [calls[0]]) == Step(s, calls[0]);
      TimeIsFirst(Step(s, calls[0]), calls[1..], key, m);
    }
  }

  lemma StepTime(s: Analytics, call: Call, key: Key, m: u32)
    requires TimesExact(s) && m in MILESTONES
    ensures TimeOf(Step(s, call), key, m) ==
      if TimeOf(s, key, m).Some? then TimeOf(s, key, m)
      else if call.RecordProgress? && (call.student, call.course) == key && m <= call.pct <= 100 then Some(call.now)
      else None
  {
    if call.RecordProgress? && call.pct <= 100 {
      var hit := (call.student, call.course);
      var achieved := s.Achieved(call.student, call.course);
      AchievedTime(s.times, hit, achieved, call.pct, call.now, |MILESTONES|, m);
      AchieveTimesExact(s.times, hit, achieved, call.pct, call.now, |MILESTONES|);
    }
  }

  lemma {:induction false} AchievedTime(times: map<(Key, u32), u64>, key: Key, achieved: seq<u32>, pct: u32, now: u64, n: nat, m: u32)
    requires n <= |MILESTONES|
    requires forall x :: (key, x) in times <==> x in achieved
    ensures var after := AchieveTimes(times, key, achieved, pct, now, n);
      && ((key, m) in times ==> (key, m) in after && after[(key, m)] == times[(key, m)])
      && ((key, m) !in times ==>
            && ((key, m) in after <==> m in MILESTONES[..n] && pct >= m)
            && ((key, m) in after ==> after[(key, m)] == now))
  {
    if n > 0 {
      AchievedTime(times, key, achieved, pct, now, n - 1, m);
      AchieveTimesExact(times, key, achieved, pct, now, n - 1);
      assert MILESTONES[..n] == MILESTONES[..n - 1] + [MILESTONES[n - 1]];
    }
  }

  lemma InitialTimes(calls: seq<Call>, key: Key, m: u32)
    requires m == 25 || m == 50 || m == 75 || m == 100
    ensures TimeOf(Run(INITIAL, calls), key, m) == FirstReached(calls, key, m)
  {
    assert MILESTONES[0] == 25 && MILESTONES[1] == 50 && MILESTONES[2] == 75 && MILESTONES[3] == 100;
    TimeIsFirst(INITIAL, calls, key, m);
  }
}

/** The contract itself. */
module AnalyticsContract {
  import opened Panics
  import opened Host
  import opened Integers
  import opened Lists
  import opened Sums
  import opened AnalyticsMachine
  import opened AnalyticsSafety

  function Percentages(records: seq<ProgressRecord>): (pcts: seq<int>)
  {
    seq(|records|, i requires 0 <= i < |records| => records[i].pct)
  }

  /** A total of percentages reaches 100 each only when every one does. */
  lemma {:induction false} FullTotal(records: seq<ProgressRecord>)
    requires forall r :: r in records ==> r.pct <= 100
    ensures 0 <= SeqSum(Percentages(records)) <= 100 * |records|
    ensures SeqSum(Percentages(records)) == 100 * |records| <==> forall r :: r in records ==> r.pct == 100
  {
    if records != [] {
      var n := |records| - 1;
      var front := records[..n];
      assert Percentages(records)[..n] == Percentages(front);
      assert forall r :: r in records <==> r in front || r == records[n];
      FullTotal(front);
    }
  }

  class AnalyticsStore {
    var records: map<Key, ProgressRecord>
    var courses: map<Address, seq<Symbol>>
    var students: map<Symbol, seq<Address>>
    var milestones: map<Key, seq<u32>>
    var times: map<(Key, u32), u64>

    ghost function View(): Analytics
      reads this
    {
      Analytics(records, courses, students, milestones, times)
    }

    constructor ()
      ensures View() == INITIAL
    {
      records, courses, students, milestones, times := map[], map[], map[], map[], map[];
    }

    method RecordProgress(student: Address, course: Symbol, pct: u32, now: u64) returns (r: Option<()>)
      modifies this
      ensures Commits(old(View()).Record(student, course, pct, now), old(View()), View(), r)
    {
      var _ :- Require(pct <= 100);
      records := records[(student, course) := ProgressRecord(student, course, pct, pct == 100, now)];
      var studentCourses := [];
      if student in courses {
        studentCourses := courses[student];
      }
      if course !in studentCourses {
        courses := courses[student := studentCourses + [course]];
      }
      var courseStudents := [];
      if course in students {
        courseStudents := students[course];
      }
      if student !in courseStudents {
        students := students[course := courseStudents + [student]];
      }
      CheckMilestones(student, course, pct, now);
      r := Some(());
    }

    method CheckMilestones(student: Address, course: Symbol, pct: u32, now: u64)
      modifies this`milestones, this`times
      ensures milestones == old(milestones)[(student, course)
                := Achieve(old(View()).Achieved(student, course), pct, |MILESTONES|)]
      ensures times == AchieveTimes(old(times), (student, course), old(View()).Achieved(student, course),
                                    pct, now, |MILESTONES|)
    {
      var achieved: seq<u32> := [];
      if (student, course) in milestones {
        achieved := milestones[(student, course)];
      }
      ghost var before := achieved;
      var i := 0;
      while i < |MILESTONES|
        invariant 0 <= i <= |MILESTONES|
        invariant milestones == old(milestones)
        invariant achieved == Achieve(before, pct, i)
        invariant times == AchieveTimes(old(times), (student, course), before, pct, now, i)
      {
        var milestone := MILESTONES[i];
        if pct >= milestone && milestone !in achieved {
          achieved := achieved + [milestone];
          times := times[((student, course), milestone) := now];
        }
        i := i + 1;
      }
      milestones := milestones[(student, course) := achieved];
    }

    method ResetProgress(student: Address, course: Symbol) returns (r: Option<()>)
      modifies this
      ensures Commits(old(View()).Reset(student, course), old(View()), View(), r)
    {
      records := records - {(student, course)};
      if student in courses {
        var rest := Remove(courses[student], course);
        courses := courses[student := rest];
      }
      r := Some(());
    }

    method GetCourseProgress(course: Symbol) returns (results: seq<ProgressRecord>)
      ensures results == View().CourseProgress(course)
    {
      results := [];
      var courseStudents := [];
      if course in students {
        courseStudents := students[course];
      }
      ghost var keys := View().CourseKeys(course);
      var i := 0;
      while i < |courseStudents|
        invariant 0 <= i <= |courseStudents| == |keys|
        invariant results == Existing(records, keys[..i])
      {
        assert keys[..i + 1][..i] == keys[..i];
        if (courseStudents[i], course) in records {
          results := results + [records[(courseStudents[i], course)]];
        }
        i := i + 1;
      }
      assert keys[..i] == keys;
    }

    method GetAllProgress(student: Address) returns (results: seq<ProgressRecord>)
      ensures results == View().AllProgress(student)
    {
      results := [];
      if student !in courses {
        return;
      }
      ghost var keys := View().StudentKeys(student);
      var i := 0;
      while i < |courses[student]|
        invariant 0 <= i <= |courses[student]| == |keys|
        invariant results == Existing(records, keys[..i])
      {
        assert keys[..i + 1][..i] == keys[..i];
        if (student, courses[student][i]) in records {
          results := results + [records[(student, courses[student][i])]];
        }
        i := i + 1;
      }
      assert keys[..i] == keys;
    }

    /** The average rounded down, zero for an empty course; it is 100 exactly
        when every student with a record completed the course. The total fits
        a u64 because a list is counted by a u32. */
    method GetCourseAverageProgress(course: Symbol) returns (average: u32)
      requires Indexed(View()) && |View().Students(course)| <= U32_MAX
      ensures var found := View().CourseProgress(course);
        && average * |found| <= SeqSum(Percentages(found))
        && (found == [] ==> average == 0)
        && (found != [] ==> SeqSum(Percentages(found)) < (average + 1) * |found| && average <= 100)
        && (found != [] ==> (average == 100 <==> forall r :: r in found ==> r.completed))
    {
      var found := GetCourseProgress(course);
      CourseProgressExact(View(), course);
      forall r | r in found
        ensures r.pct <= 100 && (r.completed <==> r.pct == 100)
      {
        assert RecordSound(View(), (r.student, course));
      }
      ExistingBound(records, View().CourseKeys(course));
      if |found| == 0 {
        return 0;
      }
      var total := TotalPercentage(found);
      FullTotal(found);
      AverageBounds(total, |found|);
      average := total / |found|;
    }

    static method TotalPercentage(found: seq<ProgressRecord>) returns (total: u64)
      requires |found| <= U32_MAX && forall r :: r in found ==> r.pct <= 100
      ensures total == SeqSum(Percentages(found))
    {
      total := 0;
      var i := 0;
      while i < |found|
        invariant 0 <= i <= |found|
        invariant 0 <= total <= 100 * i
        invariant total == SeqSum(Percentages(found[..i]))
      {
        assert found[i] in found;
        assert Percentages(found[..i + 1]) == Percentages(found[..i]) + [found[i].pct];
        SeqSumAppend(Percentages(found[..i]), found[i].pct);
        total := total + found[i].pct;
        i := i + 1;
      }
      assert found[..i] == found;
    }

    static lemma {:induction false} ExistingBound(records: map<Key, ProgressRecord>, keys: seq<Key>)
      ensures |Existing(records, keys)| <= |keys|
    {
      if keys != [] { ExistingBound(records, keys[..|keys| - 1]); }
    }

    static lemma AverageBounds(total: int, n: int)
      requires n > 0 && 0 <= total <= 100 * n
      ensures 0 <= total / n <= 100
      ensures total / n * n <= total < (total / n + 1) * n
      ensures total / n == 100 <==> total == 100 * n
    {
      QuotientBounds(total, n);
      CompareScaled(total / n, 100, n);
      CompareScaled(101, total / n + 1, n);
      CompareScaled(total / n + 1, 100, n);
    }
  }
}
