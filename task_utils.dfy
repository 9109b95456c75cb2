/** The list screens' view helpers: grouping tasks into titled sections by
    due date, and the screens' own completion toggle. Every clock reading is
    a parameter: a day or week boundary is an instant in milliseconds, as the
    date library computes it from the current time. */
module TaskUtils {
  import opened Common
  import opened Sorting
  import opened Tasks

  /** The headings a section can carry. */
  datatype Title = Overdue | Today | Tomorrow | ComingUp | Yesterday | ThisWeek | Older

  /** The heading as shown. */
  function Text(k: Title): string {
    match k
    case Overdue => "Overdue"
    case Today => "Today"
    case Tomorrow => "Tomorrow"
    case ComingUp => "Coming Up"
    case Yesterday => "Yesterday"
    case ThisWeek => "This Week"
    case Older => "Older"
  }

  /** A `TaskSection`: a heading and the tasks under it. */
  datatype Section = Section(title: Title, data: seq<Task>)

  /** The tasks of all sections, in display order. */
  function Flatten(r: seq<Section>): seq<Task> {
    if r == [] then [] else Flatten(r[..|r| - 1]) + r[|r| - 1].data
  }

  predicate HasData(s: Section) {
    s.data != []
  }

  /** The candidate sections that have tasks, in their given order: a
      section is pushed only when its bucket is non-empty. */
  function Shown(cands: seq<Section>): seq<Section> {
    Filter(cands, HasData)
  }

  /** Headings appear in strictly increasing rank. */
  ghost predicate Ascending(r: seq<Section>, rank: Title -> int) {
    forall i, j | 0 <= i < j < |r| :: rank(r[i].title) < rank(r[j].title)
  }

  /** The tasks that a classifier sends to heading `k`. */
  function TitleIs(classify: Task -> Title, k: Title): Task -> bool {
    (t: Task) => classify(t) == k
  }

  function Bucket(tasks: seq<Task>, classify: Task -> Title, k: Title): seq<Task> {
    Filter(tasks, TitleIs(classify, k))
  }

  /** The shown sections are candidates with tasks, and every candidate
      with tasks is shown. */
  lemma ShownMembers(cands: seq<Section>)
    ensures forall i | 0 <= i < |Shown(cands)| :: Shown(cands)[i] in cands && Shown(cands)[i].data != []
    ensures forall c | c in cands && c.data != [] :: c in Shown(cands)
  {
    forall i | 0 <= i < |Shown(cands)| ensures Shown(cands)[i] in cands && Shown(cands)[i].data != [] {
      FilterMembers(cands, HasData, Shown(cands)[i]);
    }
    forall c | c in cands && c.data != [] ensures c in Shown(cands) {
      FilterMembers(cands, HasData, c);
    }
  }

  /** Dropping empty candidates keeps the headings' order. */
  lemma {:induction false} ShownAscending(cands: seq<Section>, rank: Title -> int)
    requires Ascending(cands, rank)
    ensures Ascending(Shown(cands), rank)
    decreases |cands|
  {
    if cands != [] {
      var init, last := cands[..|cands| - 1], cands[|cands| - 1];
      ShownAscending(init, rank);
      var r0 := Shown(init);
      forall i | 0 <= i < |r0| ensures rank(r0[i].title) < rank(last.title) {
        FilterMembers(init, HasData, r0[i]);
        var j :| 0 <= j < |init| && init[j] == r0[i];
        assert cands[j] == r0[i];
      }
    }
  }

  /** Dropping empty candidates loses no task. */
  lemma {:induction false} ShownFlatten(cands: seq<Section>)
    ensures Flatten(Shown(cands)) == Flatten(cands)
    decreases |cands|
  {
    if cands != [] {
      var init, last := cands[..|cands| - 1], cands[|cands| - 1];
      ShownFlatten(init);
      if last.data != [] {
        var r := Shown(cands);
        assert r[..|r| - 1] == Shown(init);
      } else {
        assert Shown(cands) == Shown(init) + [];
        assert Shown(init) + [] == Shown(init);
        assert Flatten(init) + last.data == Flatten(init);
      }
    }
  }

  lemma FlattenFour(c1: Section, c2: Section, c3: Section, c4: Section)
    ensures Flatten([c1, c2, c3, c4]) == c1.data + c2.data + c3.data + c4.data
  {
    assert [c1][..0] == [];
    assert Flatten([c1]) == c1.data by { assert [] + c1.data == c1.data; }
    assert [c1, c2][..1] == [c1];
    assert Flatten([c1, c2]) == c1.data + c2.data;
    assert [c1, c2, c3][..2] == [c1, c2];
    assert Flatten([c1, c2, c3]) == c1.data + c2.data + c3.data;
    assert [c1, c2, c3, c4][..3] == [c1, c2, c3];
  }

  /** Showing one more candidate pushes it when it has tasks. */
  lemma ShownSnoc(cands: seq<Section>, c: Section)
    ensures Shown(cands + [c]) == Shown(cands) + (if HasData(c) then [c] else [])
  {
    assert (cands + [c])[..|cands|] == cands;
  }

  /** The tasks of four shown candidates are the four candidates' tasks. */
  lemma ShownFourFlatten(c1: Section, c2: Section, c3: Section, c4: Section)
    ensures Flatten(Shown([c1, c2, c3, c4])) == c1.data + c2.data + c3.data + c4.data
  {
    ShownFlatten([c1, c2, c3, c4]);
    FlattenFour(c1, c2, c3, c4);
  }

  /** Four candidates with increasing ranks are shown in that order. */
  lemma ShownFourAscending(c1: Section, c2: Section, c3: Section, c4: Section, rank: Title -> int)
    requires rank(c1.title) < rank(c2.title) < rank(c3.title) < rank(c4.title)
    ensures Ascending(Shown([c1, c2, c3, c4]), rank)
  {
    ShownAscending([c1, c2, c3, c4], rank);
  }

  /** Each shown section is one of the four candidates, and has tasks. */
  lemma ShownFourMembers(c1: Section, c2: Section, c3: Section, c4: Section)
    ensures forall i | 0 <= i < |Shown([c1, c2, c3, c4])| ::
      var s := Shown([c1, c2, c3, c4])[i];
      s.data != [] && (s == c1 || s == c2 || s == c3 || s == c4)
  {
    ShownMembers([c1, c2, c3, c4]);
  }

  lemma MultisetFour(d1: seq<Task>, d2: seq<Task>, d3: seq<Task>, d4: seq<Task>)
    ensures multiset(d1 + d2 + d3 + d4) == multiset(d1) + multiset(d2) + multiset(d3) + multiset(d4)
    ensures |d1 + d2 + d3 + d4| == |multiset(d1 + d2 + d3 + d4)|
  {
  }

  /** Four distinct headings that cover every task split the tasks: the
      buckets together hold each task exactly as often as the input does. */
  lemma {:induction false} FourWayPartition(s: seq<Task>, classify: Task -> Title,
                                            k1: Title, k2: Title, k3: Title, k4: Title)
    requires k1 != k2 && k1 != k3 && k1 != k4 && k2 != k3 && k2 != k4 && k3 != k4
    requires forall i | 0 <= i < |s| ::
      classify(s[i]) == k1 || classify(s[i]) == k2 || classify(s[i]) == k3 || classify(s[i]) == k4
    ensures multiset(Bucket(s, classify, k1)) + multiset(Bucket(s, classify, k2))
          + multiset(Bucket(s, classify, k3)) + multiset(Bucket(s, classify, k4)) == multiset(s)
    decreases |s|
  {
    if s != [] {
      var init, x := s[..|s| - 1], s[|s| - 1];
      FourWayPartition(init, classify, k1, k2, k3, k4);
      BucketSnoc(s, classify, k1);
      BucketSnoc(s, classify, k2);
      BucketSnoc(s, classify, k3);
      BucketSnoc(s, classify, k4);
      assert multiset(s) == multiset(init) + multiset{x} by {
        assert s == init + [x];
      }
      FourWayStep(multiset(Bucket(init, classify, k1)), multiset(Bucket(init, classify, k2)),
                  multiset(Bucket(init, classify, k3)), multiset(Bucket(init, classify, k4)),
                  multiset(Bucket(s, classify, k1)), multiset(Bucket(s, classify, k2)),
                  multiset(Bucket(s, classify, k3)), multiset(Bucket(s, classify, k4)),
                  x, classify(x), k1, k2, k3, k4);
    }
  }

  /** One more element lands in exactly one of four buckets. */
  lemma FourWayStep(a1: multiset<Task>, a2: multiset<Task>, a3: multiset<Task>, a4: multiset<Task>,
                    b1: multiset<Task>, b2: multiset<Task>, b3: multiset<Task>, b4: multiset<Task>,
                    x: Task, c: Title, k1: Title, k2: Title, k3: Title, k4: Title)
    requires k1 != k2 && k1 != k3 && k1 != k4 && k2 != k3 && k2 != k4 && k3 != k4
    requires c == k1 || c == k2 || c == k3 || c == k4
    requires b1 == a1 + (if c == k1 then multiset{x} else multiset{})
    requires b2 == a2 + (if c == k2 then multiset{x} else multiset{})
    requires b3 == a3 + (if c == k3 then multiset{x} else multiset{})
    requires b4 == a4 + (if c == k4 then multiset{x} else multiset{})
    ensures b1 + b2 + b3 + b4 == a1 + a2 + a3 + a4 + multiset{x}
  {
  }

  lemma BucketSnoc(s: seq<Task>, classify: Task -> Title, k: Title)
    requires s != []
    ensures multiset(Bucket(s, classify, k))
         == multiset(Bucket(s[..|s| - 1], classify, k))
          + (if classify(s[|s| - 1]) == k then multiset{s[|s| - 1]} else multiset{})
  {
  }

  /** Classifying one more task of a prefix. */
  lemma BucketStep(tasks: seq<Task>, i: int, classify: Task -> Title, k: Title)
    requires 0 <= i < |tasks|
    ensures Bucket(tasks[..i + 1], classify, k)
         == Bucket(tasks[..i], classify, k) + (if classify(tasks[i]) == k then [tasks[i]] else [])
  {
    FilterPrefixStep(tasks, i, TitleIs(classify, k));
  }

  /** `if (bucket.length) sections.push({ title, data })`. */
  method PushNonEmpty(sections: seq<Section>, c: Section) returns (r: seq<Section>)
    ensures r == sections + (if HasData(c) then [c] else [])
  {
    r := sections;
    if |c.data| > 0 {
      r := r + [c];
    }
  }

  /** Pushing four candidate sections in turn, each only when it has tasks. */
  method PushFour(c1: Section, c2: Section, c3: Section, c4: Section) returns (sections: seq<Section>)
    ensures sections == Shown([c1, c2, c3, c4])
  {
    sections := PushNonEmpty([], c1);
    ShownSnoc([], c1);
    assert [] + [c1] == [c1];
    sections := PushNonEmpty(sections, c2);
    ShownSnoc([c1], c2);
    assert [c1] + [c2] == [c1, c2];
    sections := PushNonEmpty(sections, c3);
    ShownSnoc([c1, c2], c3);
    assert [c1, c2] + [c3] == [c1, c2, c3];
    sections := PushNonEmpty(sections, c4);
    ShownSnoc([c1, c2, c3], c4);
    assert [c1, c2, c3] + [c4] == [c1, c2, c3, c4];
  }

  // ---------------------------------------------------------------------
  // Upcoming tasks: Overdue, Today, Tomorrow, Coming Up

  /** The three instants `groupUpcomingTasksByDate` reads off the clock. */
  datatype UpcomingBounds = UpcomingBounds(todayStart: int, tomorrowStart: int, dayAfterTomorrowStart: int)

  /** The boundaries never decrease. */
  predicate Increasing(b: UpcomingBounds) {
    b.todayStart <= b.tomorrowStart <= b.dayAfterTomorrowStart
  }

  /** The first strict `isBefore` test that a due instant passes. */
  function UpcomingTitle(due: int, b: UpcomingBounds): Title {
    if due < b.todayStart then Overdue
    else if due < b.tomorrowStart then Today
    else if due < b.dayAfterTomorrowStart then Tomorrow
    else ComingUp
  }

  function UpcomingOf(b: UpcomingBounds): Task -> Title {
    (t: Task) => UpcomingTitle(t.dueDate, b)
  }

  function UpcomingRank(k: Title): int {
    match k
    case Overdue => 0
    case Today => 1
    case Tomorrow => 2
    case ComingUp => 3
    case _ => 4
  }

  /** A bucket's tasks as shown: "Today" by `order`, the others as given. */
  function UpcomingData(tasks: seq<Task>, b: UpcomingBounds, k: Title): seq<Task> {
    if k == Today then SortBy(Bucket(tasks, UpcomingOf(b), k), OrderOf)
    else Bucket(tasks, UpcomingOf(b), k)
  }

  /** The four sections `groupUpcomingTasksByDate` may push, in order. */
  function UpcomingCandidates(tasks: seq<Task>, b: UpcomingBounds): seq<Section> {
    [Section(Overdue, UpcomingData(tasks, b, Overdue)), Section(Today, UpcomingData(tasks, b, Today)),
     Section(Tomorrow, UpcomingData(tasks, b, Tomorrow)), Section(ComingUp, UpcomingData(tasks, b, ComingUp))]
  }

  /** What `groupUpcomingTasksByDate` returns. */
  function UpcomingSections(tasks: seq<Task>, b: UpcomingBounds): seq<Section> {
    Shown(UpcomingCandidates(tasks, b))
  }

  /** With ordered boundaries, each heading is one half-open interval of due
      instants, and a later due instant never gets an earlier heading. */
  lemma UpcomingTitleBounds(due: int, later: int, b: UpcomingBounds)
    requires Increasing(b)
    ensures UpcomingTitle(due, b) == Overdue <==> due < b.todayStart
    ensures UpcomingTitle(due, b) == Today <==> b.todayStart <= due < b.tomorrowStart
    ensures UpcomingTitle(due, b) == Tomorrow <==> b.tomorrowStart <= due < b.dayAfterTomorrowStart
    ensures UpcomingTitle(due, b) == ComingUp <==> b.dayAfterTomorrowStart <= due
    ensures due <= later ==> UpcomingRank(UpcomingTitle(due, b)) <= UpcomingRank(UpcomingTitle(later, b))
  {
  }

  /** The sections appear in the order Overdue, Today, Tomorrow, Coming Up. */
  lemma UpcomingSectionsOrdered(tasks: seq<Task>, b: UpcomingBounds)
    ensures Ascending(UpcomingSections(tasks, b), UpcomingRank)
  {
    var d1, d2 := UpcomingData(tasks, b, Overdue), UpcomingData(tasks, b, Today);
    var d3, d4 := UpcomingData(tasks, b, Tomorrow), UpcomingData(tasks, b, ComingUp);
    ShownFourAscending(Section(Overdue, d1), Section(Today, d2), Section(Tomorrow, d3), Section(ComingUp, d4),
                       UpcomingRank);
  }

  /** Every section is a non-empty bucket: "Today" holds its bucket sorted
      by `order`, every other section its bucket in input order. */
  lemma UpcomingSectionsContent(tasks: seq<Task>, b: UpcomingBounds)
    ensures forall i | 0 <= i < |UpcomingSections(tasks, b)| ::
      var s := UpcomingSections(tasks, b)[i];
      UpcomingRank(s.title) < 4 && s.data != [] && s.data == UpcomingData(tasks, b, s.title)
  {
    var d1, d2 := UpcomingData(tasks, b, Overdue), UpcomingData(tasks, b, Today);
    var d3, d4 := UpcomingData(tasks, b, Tomorrow), UpcomingData(tasks, b, ComingUp);
    ShownFourMembers(Section(Overdue, d1), Section(Today, d2), Section(Tomorrow, d3), Section(ComingUp, d4));
  }

  /** Every non-empty bucket has its section. */
  lemma UpcomingSectionsComplete(tasks: seq<Task>, b: UpcomingBounds, k: Title)
    requires UpcomingRank(k) < 4 && Bucket(tasks, UpcomingOf(b), k) != []
    ensures Section(k, UpcomingData(tasks, b, k)) in UpcomingSections(tasks, b)
  {
    var cands := UpcomingCandidates(tasks, b);
    assert |UpcomingData(tasks, b, k)| == |Bucket(tasks, UpcomingOf(b), k)|;
    assert Section(k, UpcomingData(tasks, b, k)) in cands;
    FilterMembers(cands, HasData, Section(k, UpcomingData(tasks, b, k)));
  }

  /** Every task lands in exactly one section: the sections together hold
      the input's tasks, each as often as the input does. */
  lemma UpcomingSectionsPartition(tasks: seq<Task>, b: UpcomingBounds)
    ensures multiset(Flatten(UpcomingSections(tasks, b))) == multiset(tasks)
    ensures |Flatten(UpcomingSections(tasks, b))| == |tasks|
  {
    var up := UpcomingOf(b);
    var d1, d2 := UpcomingData(tasks, b, Overdue), UpcomingData(tasks, b, Today);
    var d3, d4 := UpcomingData(tasks, b, Tomorrow), UpcomingData(tasks, b, ComingUp);
    ShownFourFlatten(Section(Overdue, d1), Section(Today, d2), Section(Tomorrow, d3), Section(ComingUp, d4));
    FourWayPartition(tasks, up, Overdue, Today, Tomorrow, ComingUp);
    MultisetFour(d1, d2, d3, d4);
    assert multiset(d2) == multiset(Bucket(tasks, up, Today));
  }

  /** A task shown under a heading is due in that heading's interval. */
  lemma UpcomingPlacement(tasks: seq<Task>, b: UpcomingBounds, i: int, t: Task)
    requires 0 <= i < |UpcomingSections(tasks, b)|
    requires t in UpcomingSections(tasks, b)[i].data
    ensures UpcomingTitle(t.dueDate, b) == UpcomingSections(tasks, b)[i].title
  {
    UpcomingSectionsContent(tasks, b);
    var k := UpcomingSections(tasks, b)[i].title;
    var bucket := Bucket(tasks, UpcomingOf(b), k);
    assert t in bucket by {
      if k == Today {
        assert multiset(SortBy(bucket, OrderOf)) == multiset(bucket);
        assert t in multiset(bucket);
      }
    }
    FilterMembers(tasks, TitleIs(UpcomingOf(b), k), t);
  }

  /** "Today" is sorted by `order`, holds the bucket's tasks, and tasks with
      the same `order` keep their input order (the sort is stable). */
  lemma UpcomingTodayOrdered(tasks: seq<Task>, b: UpcomingBounds, v: int)
    ensures SortedBy(UpcomingData(tasks, b, Today), OrderOf)
    ensures multiset(UpcomingData(tasks, b, Today)) == multiset(Bucket(tasks, UpcomingOf(b), Today))
    ensures Filter(UpcomingData(tasks, b, Today), KeyIs(OrderOf, v))
         == Filter(Bucket(tasks, UpcomingOf(b), Today), KeyIs(OrderOf, v))
  {
    SortByStable(Bucket(tasks, UpcomingOf(b), Today), OrderOf, v);
  }

  /** `groupUpcomingTasksByDate`: one pass filling four buckets, then the
      non-empty ones in display order, "Today" sorted by `order`. */
  method GroupUpcomingTasksByDate(tasks: seq<Task>, b: UpcomingBounds) returns (sections: seq<Section>)
    ensures sections == UpcomingSections(tasks, b)
  {
    var overdue, today, tomorrow, comingUp := [], [], [], [];
    for i := 0 to |tasks|
      invariant overdue == Bucket(tasks[..i], UpcomingOf(b), Overdue)
      invariant today == Bucket(tasks[..i], UpcomingOf(b), Today)
      invariant tomorrow == Bucket(tasks[..i], UpcomingOf(b), Tomorrow)
      invariant comingUp == Bucket(tasks[..i], UpcomingOf(b), ComingUp)
    {
      var task := tasks[i];
      BucketStep(tasks, i, UpcomingOf(b), Overdue);
      BucketStep(tasks, i, UpcomingOf(b), Today);
      BucketStep(tasks, i, UpcomingOf(b), Tomorrow);
      BucketStep(tasks, i, UpcomingOf(b), ComingUp);
      assert UpcomingOf(b)(task) == UpcomingTitle(task.dueDate, b);
      if task.dueDate < b.todayStart {
        overdue := overdue + [task];
      } else if task.dueDate < b.tomorrowStart {
        today := today + [task];
      } else if task.dueDate < b.dayAfterTomorrowStart {
        tomorrow := tomorrow + [task];
      } else {
        comingUp := comingUp + [task];
      }
    }
    assert tasks[..|tasks|] == tasks;
    sections := PushFour(Section(Overdue, overdue), Section(Today, SortBy(today, OrderOf)),
                         Section(Tomorrow, tomorrow), Section(ComingUp, comingUp));
  }

  // ---------------------------------------------------------------------
  // Completed tasks: Today, Yesterday, This Week, Older

  /** The instants `groupCompletedTasksByDate` reads off the clock: the
      starts of yesterday, today and tomorrow, and the ISO week's first
      instant (Monday 00:00) and last instant (Sunday 23:59:59.999). */
  datatype CompletedBounds = CompletedBounds(
    yesterdayStart: int, todayStart: int, tomorrowStart: int, weekStart: int, weekEnd: int)

  predicate IsToday(date: int, b: CompletedBounds) {
    b.todayStart <= date < b.tomorrowStart
  }

  predicate IsYesterday(date: int, b: CompletedBounds) {
    b.yesterdayStart <= date < b.todayStart
  }

  /** `isThisWeek`: strictly after the week's first instant and strictly
      before its last. */
  predicate IsThisWeek(date: int, b: CompletedBounds) {
    b.weekStart < date < b.weekEnd
  }

  function CompletedTitle(due: int, b: CompletedBounds): Title {
    if IsToday(due, b) then Today
    else if IsYesterday(due, b) then Yesterday
    else if IsThisWeek(due, b) then ThisWeek
    else Older
  }

  function CompletedOf(b: CompletedBounds): Task -> Title {
    (t: Task) => CompletedTitle(t.dueDate, b)
  }

  function CompletedRank(k: Title): int {
    match k
    case Today => 0
    case Yesterday => 1
    case ThisWeek => 2
    case Older => 3
    case _ => 4
  }

  /** The four sections `groupCompletedTasksByDate` may push, in order. */
  function CompletedCandidates(tasks: seq<Task>, b: CompletedBounds): seq<Section> {
    var c := CompletedOf(b);
    [Section(Today, Bucket(tasks, c, Today)), Section(Yesterday, Bucket(tasks, c, Yesterday)),
     Section(ThisWeek, Bucket(tasks, c, ThisWeek)), Section(Older, Bucket(tasks, c, Older))]
  }

  /** What `groupCompletedTasksByDate` returns. */
  function CompletedSections(tasks: seq<Task>, b: CompletedBounds): seq<Section> {
    Shown(CompletedCandidates(tasks, b))
  }

  /** The week test is strict at both ends: a task due at the week's first
      instant, or at its last, is not "This Week"; unless it is due today or
      yesterday it is "Older". Strictly inside the week and outside today and
      yesterday, it is "This Week". */
  lemma CompletedWeekEdges(b: CompletedBounds, due: int)
    requires !IsToday(due, b) && !IsYesterday(due, b)
    ensures (due == b.weekStart || due == b.weekEnd) ==> CompletedTitle(due, b) == Older
    ensures b.weekStart < due < b.weekEnd ==> CompletedTitle(due, b) == ThisWeek
  {
  }

  /** The sections appear in the order Today, Yesterday, This Week, Older. */
  lemma CompletedSectionsOrdered(tasks: seq<Task>, b: CompletedBounds)
    ensures Ascending(CompletedSections(tasks, b), CompletedRank)
  {
    var c := CompletedOf(b);
    var d1, d2 := Bucket(tasks, c, Today), Bucket(tasks, c, Yesterday);
    var d3, d4 := Bucket(tasks, c, ThisWeek), Bucket(tasks, c, Older);
    ShownFourAscending(Section(Today, d1), Section(Yesterday, d2), Section(ThisWeek, d3), Section(Older, d4),
                       CompletedRank);
  }

  /** Every section is a non-empty bucket, holding it in input order. */
  lemma CompletedSectionsContent(tasks: seq<Task>, b: CompletedBounds)
    ensures forall i | 0 <= i < |CompletedSections(tasks, b)| ::
      var s := CompletedSections(tasks, b)[i];
      CompletedRank(s.title) < 4 && s.data != [] && s.data == Bucket(tasks, CompletedOf(b), s.title)
  {
    var c := CompletedOf(b);
    var d1, d2 := Bucket(tasks, c, Today), Bucket(tasks, c, Yesterday);
    var d3, d4 := Bucket(tasks, c, ThisWeek), Bucket(tasks, c, Older);
    ShownFourMembers(Section(Today, d1), Section(Yesterday, d2), Section(ThisWeek, d3), Section(Older, d4));
  }

  /** Every non-empty bucket has its section. */
  lemma CompletedSectionsComplete(tasks: seq<Task>, b: CompletedBounds, k: Title)
    requires CompletedRank(k) < 4 && Bucket(tasks, CompletedOf(b), k) != []
    ensures Section(k, Bucket(tasks, CompletedOf(b), k)) in CompletedSections(tasks, b)
  {
    var cands := CompletedCandidates(tasks, b);
    assert Section(k, Bucket(tasks, CompletedOf(b), k)) in cands;
    FilterMembers(cands, HasData, Section(k, Bucket(tasks, CompletedOf(b), k)));
  }

  /** Every task lands in exactly one section: the sections together hold
      the input's tasks, each as often as the input does. */
  lemma CompletedSectionsPartition(tasks: seq<Task>, b: CompletedBounds)
    ensures multiset(Flatten(CompletedSections(tasks, b))) == multiset(tasks)
    ensures |Flatten(CompletedSections(tasks, b))| == |tasks|
  {
    var c := CompletedOf(b);
    var d1, d2 := Bucket(tasks, c, Today), Bucket(tasks, c, Yesterday);
    var d3, d4 := Bucket(tasks, c, ThisWeek), Bucket(tasks, c, Older);
    ShownFourFlatten(Section(Today, d1), Section(Yesterday, d2), Section(ThisWeek, d3), Section(Older, d4));
    FourWayPartition(tasks, c, Today, Yesterday, ThisWeek, Older);
    MultisetFour(d1, d2, d3, d4);
  }

  /** A task shown under a heading is one the first-match classification
      gives that heading. */
  lemma CompletedPlacement(tasks: seq<Task>, b: CompletedBounds, i: int, t: Task)
    requires 0 <= i < |CompletedSections(tasks, b)|
    requires t in CompletedSections(tasks, b)[i].data
    ensures CompletedTitle(t.dueDate, b) == CompletedSections(tasks, b)[i].title
  {
    CompletedSectionsContent(tasks, b);
    FilterMembers(tasks, TitleIs(CompletedOf(b), CompletedSections(tasks, b)[i].title), t);
  }

  /** `groupCompletedTasksByDate`: one pass filling four buckets, then the
      non-empty ones in display order. */
  method GroupCompletedTasksByDate(tasks: seq<Task>, b: CompletedBounds) returns (sections: seq<Section>)
    ensures sections == CompletedSections(tasks, b)
  {
    var today, yesterday, thisWeek, older := [], [], [], [];
    for i := 0 to |tasks|
      invariant today == Bucket(tasks[..i], CompletedOf(b), Today)
      invariant yesterday == Bucket(tasks[..i], CompletedOf(b), Yesterday)
      invariant thisWeek == Bucket(tasks[..i], CompletedOf(b), ThisWeek)
      invariant older == Bucket(tasks[..i], CompletedOf(b), Older)
    {
      var date := tasks[i].dueDate;
      BucketStep(tasks, i, CompletedOf(b), Today);
      BucketStep(tasks, i, CompletedOf(b), Yesterday);
      BucketStep(tasks, i, CompletedOf(b), ThisWeek);
      BucketStep(tasks, i, CompletedOf(b), Older);
      assert CompletedOf(b)(tasks[i]) == CompletedTitle(date, b);
      if IsToday(date, b) {
        today := today + [tasks[i]];
      } else if IsYesterday(date, b) {
        yesterday := yesterday + [tasks[i]];
      } else if IsThisWeek(date, b) {
        thisWeek := thisWeek + [tasks[i]];
      } else {
        older := older + [tasks[i]];
      }
    }
    assert tasks[..|tasks|] == tasks;
    sections := PushFour(Section(Today, today), Section(Yesterday, yesterday),
                         Section(ThisWeek, thisWeek), Section(Older, older));
  }

  // ---------------------------------------------------------------------
  // The view's own toggle

  /** `toggleTaskCompletedOnView`: flip `completed` on every task with `id`.
      Only `completed` changes, and it changes exactly on those tasks. */
  function ToggleOnView(ts: seq<Task>, id: string): (r: seq<Task>)
    ensures |r| == |ts|
    ensures forall k | 0 <= k < |ts| :: r[k] == ts[k].(completed := r[k].completed)
    ensures forall k | 0 <= k < |ts| :: r[k].completed != ts[k].completed <==> ts[k].id == id
  {
    if ts == [] then []
    else [if ts[0].id == id then Flipped(ts[0]) else ts[0]] + ToggleOnView(ts[1..], id)
  }

  /** Toggling twice on the view restores the list. */
  lemma ToggleOnViewTwice(ts: seq<Task>, id: string)
    ensures ToggleOnView(ToggleOnView(ts, id), id) == ts
  {
    var once := ToggleOnView(ts, id);
    var twice := ToggleOnView(once, id);
    forall k | 0 <= k < |ts| ensures twice[k] == ts[k] {
      assert once[k].id == ts[k].id;
    }
  }

  /** For an id no task holds, the view's toggle changes nothing where the
      store's fails. */
  lemma ToggleOnViewAbsent(ts: seq<Task>, id: string)
    requires !Contains(ts, id)
    ensures ToggleOnView(ts, id) == ts
    ensures ToggleStatus(ts, id).Err?
  {
    var r := ToggleOnView(ts, id);
    forall k | 0 <= k < |ts| ensures r[k] == ts[k] {
      assert ts[k].id != id;
    }
  }

  /** The view's toggle agrees with the store's when exactly one task, at
      position `k`, holds the id. */
  lemma ToggleOnViewMatchesStore(ts: seq<Task>, id: string, k: int)
    requires IsFirstWithId(ts, id, k)
    requires forall j | k < j < |ts| :: ts[j].id != id
    ensures ToggleStatus(ts, id) == Ok(ToggleOnView(ts, id))
  {
    var r := ToggleOnView(ts, id);
    assert Contains(ts, id);
    var s := ToggleStatus(ts, id).value;
    forall j | 0 <= j < |ts| ensures s[j] == r[j] {
      assert IsFirstWithId(ts, id, j) <==> j == k;
    }
    assert s == r;
  }
}
