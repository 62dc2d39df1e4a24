/** The Timeline page: the built-in sample schedule, the progress statistics shown
    above the chart, the task selected by a click, and the dependency names shown for
    the selected task. */
module Timeline {
  import opened Wrappers
  import opened CivilDate
  import opened GanttChart
  import opened Lists

  /** `new Date('YYYY-MM-DD')`, with the month counted from 1 as written. */
  function IsoDate(year: int, month: int, date: int): Day {
    MakeDay(year, month - 1, date)
  }

  /** The sample schedule the page passes to the chart. Its dates are written as day
      numbers; SampleDatesAreCalendarDates checks them against the calendar. */
  const Task1: GanttTask := GanttTask("1", "Q1 2024 Planning", 19723, 19737, 100,
      [], Some("John Doe"), Project, Some("bg-blue-500"))
  const Task2: GanttTask := GanttTask("2", "System Architecture Review", 19732, 19742, 75,
      ["1"], Some("Jane Smith"), Task, None)
  const Task3: GanttTask := GanttTask("3", "Database Migration", 19737, 19754, 40,
      ["2"], Some("Mike Johnson"), Task, None)
  const Task4: GanttTask := GanttTask("4", "API Development", 19742, 19763, 25,
      ["2"], Some("Sarah Wilson"), Task, None)
  const Task5: GanttTask := GanttTask("5", "Security Audit Complete", 19758, 19758, 0,
      ["3", "4"], Some("Security Team"), Milestone, None)
  const Task6: GanttTask := GanttTask("6", "User Testing Phase", 19763, 19778, 0,
      ["5"], Some("QA Team"), Task, None)
  const Task7: GanttTask := GanttTask("7", "Production Deployment", 19778, 19781, 0,
      ["6"], Some("DevOps Team"), Milestone, None)
  const Task8: GanttTask := GanttTask("8", "Q2 2024 Development", 19783, 19874, 0,
      ["7"], Some("John Doe"), Project, Some("bg-green-500"))
  const SampleTasks: seq<GanttTask> := [Task1, Task2, Task3, Task4, Task5, Task6, Task7, Task8]

  /** A date of 2024 is day 19723 (January 1st, 2024) plus its day of the year. */
  lemma DateIn2024(month: int, date: int)
    requires 1 <= month <= 12
    ensures IsoDate(2024, month, date) == 19723 + DaysBeforeMonth(2024, month - 1) + date - 1
  {
    var mi := 12 * 2024 + month - 1;
    assert mi / 12 == 2024 && mi % 12 == month - 1;
  }

  /** The day numbers in the sample schedule are the dates the page writes out. */
  lemma SampleDatesAreCalendarDates()
    ensures IsoDate(2024, 1, 1) == 19723 && IsoDate(2024, 1, 10) == 19732
    ensures IsoDate(2024, 1, 15) == 19737 && IsoDate(2024, 1, 20) == 19742
    ensures IsoDate(2024, 2, 1) == 19754 && IsoDate(2024, 2, 5) == 19758
    ensures IsoDate(2024, 2, 10) == 19763 && IsoDate(2024, 2, 25) == 19778
    ensures IsoDate(2024, 2, 28) == 19781 && IsoDate(2024, 3, 1) == 19783
    ensures IsoDate(2024, 5, 31) == 19874
  {
    DateIn2024(1, 1);
    DateIn2024(1, 10);
    DateIn2024(1, 15);
    DateIn2024(1, 20);
    DateIn2024(2, 1);
    DateIn2024(2, 5);
    DateIn2024(2, 10);
    DateIn2024(2, 25);
    DateIn2024(2, 28);
    DateIn2024(3, 1);
    DateIn2024(5, 31);
  }

  // ----- Progress statistics -----

  predicate IsCompleted(t: GanttTask) { t.progress == 100 }

  predicate IsInProgress(t: GanttTask) { 0 < t.progress < 100 }

  predicate IsNotStarted(t: GanttTask) { t.progress == 0 }

  datatype TaskStats = TaskStats(total: nat, completed: nat, inProgress: nat, notStarted: nat)

  /** `getTaskStats`: the number of tasks, and how many are completed, in progress
      and not started. */
  function GetTaskStats(tasks: seq<GanttTask>): (s: TaskStats)
    ensures s.completed <= s.total && s.inProgress <= s.total && s.notStarted <= s.total
  {
    TaskStats(|tasks|, |Filter(tasks, IsCompleted)|, |Filter(tasks, IsInProgress)|,
      |Filter(tasks, IsNotStarted)|)
  }

  /** No task is in two categories; a task whose progress lies in [0, 100] is in
      exactly one. */
  lemma CategoriesDisjoint(t: GanttTask)
    ensures !(IsCompleted(t) && IsInProgress(t))
    ensures !(IsCompleted(t) && IsNotStarted(t))
    ensures !(IsInProgress(t) && IsNotStarted(t))
    ensures 0 <= t.progress <= 100 ==> IsCompleted(t) || IsInProgress(t) || IsNotStarted(t)
  {
  }

  /** When every progress value lies in [0, 100] the three counts add up to the total. */
  lemma {:induction false} StatsPartition(tasks: seq<GanttTask>)
    requires forall i :: 0 <= i < |tasks| ==> 0 <= tasks[i].progress <= 100
    ensures var s := GetTaskStats(tasks);
      s.completed + s.inProgress + s.notStarted == s.total
  {
    if tasks != [] {
      StatsPartition(tasks[1..]);
    }
  }

  /** A progress value outside [0, 100] is counted in no category. */
  lemma OutOfRangeProgressUncounted(t: GanttTask)
    requires t.progress > 100 || t.progress < 0
    ensures var s := GetTaskStats([t]);
      s.total == 1 && s.completed + s.inProgress + s.notStarted == 0
  {
    assert [t][1..] == [];
  }

  /** The statistics of a schedule are those of its tail plus its first task. */
  lemma StatsOfCons(tasks: seq<GanttTask>)
    requires tasks != []
    ensures var s, r, t := GetTaskStats(tasks), GetTaskStats(tasks[1..]), tasks[0];
      s == TaskStats(r.total + 1,
        r.completed + (if IsCompleted(t) then 1 else 0),
        r.inProgress + (if IsInProgress(t) then 1 else 0),
        r.notStarted + (if IsNotStarted(t) then 1 else 0))
  {
  }

  /** The last four sample tasks have not started. */
  lemma SampleTailStats()
    ensures GetTaskStats([Task5, Task6, Task7, Task8]) == TaskStats(4, 0, 0, 4)
  {
    assert GetTaskStats([]) == TaskStats(0, 0, 0, 0);
    assert GetTaskStats([Task8]) == TaskStats(1, 0, 0, 1) by {
      assert [Task8][1..] == [];
      StatsOfCons([Task8]);
    }
    assert GetTaskStats([Task7, Task8]) == TaskStats(2, 0, 0, 2) by {
      assert [Task7, Task8][1..] == [Task8];
      StatsOfCons([Task7, Task8]);
    }
    assert GetTaskStats([Task6, Task7, Task8]) == TaskStats(3, 0, 0, 3) by {
      assert [Task6, Task7, Task8][1..] == [Task7, Task8];
      StatsOfCons([Task6, Task7, Task8]);
    }
    assert GetTaskStats([Task5, Task6, Task7, Task8]) == TaskStats(4, 0, 0, 4) by {
      assert [Task5, Task6, Task7, Task8][1..] == [Task6, Task7, Task8];
      StatsOfCons([Task5, Task6, Task7, Task8]);
    }
  }

  /** On the sample schedule: 8 tasks, 1 completed, 3 in progress, 4 not started. */
  lemma SampleStats()
    ensures GetTaskStats(SampleTasks) == TaskStats(8, 1, 3, 4)
  {
    SampleTailStats();
    assert GetTaskStats([Task4, Task5, Task6, Task7, Task8]) == TaskStats(5, 0, 1, 4) by {
      assert [Task4, Task5, Task6, Task7, Task8][1..] == [Task5, Task6, Task7, Task8];
      StatsOfCons([Task4, Task5, Task6, Task7, Task8]);
    }
    assert GetTaskStats([Task3, Task4, Task5, Task6, Task7, Task8]) == TaskStats(6, 0, 2, 4) by {
      assert [Task3, Task4, Task5, Task6, Task7, Task8][1..] == [Task4, Task5, Task6, Task7, Task8];
      StatsOfCons([Task3, Task4, Task5, Task6, Task7, Task8]);
    }
    assert GetTaskStats([Task2, Task3, Task4, Task5, Task6, Task7, Task8]) == TaskStats(7, 0, 3, 4) by {
      assert [Task2, Task3, Task4, Task5, Task6, Task7, Task8][1..] == [Task3, Task4, Task5, Task6, Task7, Task8];
      StatsOfCons([Task2, Task3, Task4, Task5, Task6, Task7, Task8]);
    }
    assert GetTaskStats([Task1, Task2, Task3, Task4, Task5, Task6, Task7, Task8]) == TaskStats(8, 1, 3, 4) by {
      assert [Task1, Task2, Task3, Task4, Task5, Task6, Task7, Task8][1..] == [Task2, Task3, Task4, Task5, Task6, Task7, Task8];
      StatsOfCons([Task1, Task2, Task3, Task4, Task5, Task6, Task7, Task8]);
    }
  }

  // ----- Selected task -----

  /** The page state: the view mode chosen in the selector and the task last clicked. */
  class TimelinePage {
    var viewMode: ViewMode
    var selectedTask: Option<GanttTask>

    constructor ()
      ensures viewMode == WeekView && selectedTask == None
    {
      viewMode := WeekView;
      selectedTask := None;
    }

    /** `handleTaskClick`: the clicked task becomes the selected one. */
    method HandleTaskClick(task: GanttTask)
      modifies this
      ensures selectedTask == Some(task)
      ensures viewMode == old(viewMode)
    {
      selectedTask := Some(task);
    }

    /** The view selector: only the mode changes. */
    method SetViewMode(mode: ViewMode)
      modifies this
      ensures viewMode == mode
      ensures selectedTask == old(selectedTask)
    {
      viewMode := mode;
    }
  }

  // ----- Dependency names -----

  /** The badges under "Dependencies": the name of the first task with each id, in the
      order of the ids, skipping ids that match no task. */
  function DependencyNames(selected: GanttTask, tasks: seq<GanttTask>): (names: seq<string>)
    ensures var deps := ResolveDependencies(selected.dependencies, tasks);
      |names| == |deps| && forall k :: 0 <= k < |names| ==> names[k] == deps[k].name
  {
    var deps := ResolveDependencies(selected.dependencies, tasks);
    seq(|deps|, k requires 0 <= k < |deps| => deps[k].name)
  }

  /** The first sample task with id "3" is the database migration, and the first with
      id "4" is the API development. */
  lemma SampleLookups()
    ensures FindTask(SampleTasks, "3") == Some(Task3)
    ensures FindTask(SampleTasks, "4") == Some(Task4)
  {
    assert FindTask([Task4, Task5, Task6, Task7, Task8], "4") == Some(Task4);
    assert FindTask([Task3, Task4, Task5, Task6, Task7, Task8], "3") == Some(Task3);
    assert FindTask([Task3, Task4, Task5, Task6, Task7, Task8], "4") == Some(Task4) by {
      assert [Task3, Task4, Task5, Task6, Task7, Task8][1..] == [Task4, Task5, Task6, Task7, Task8];
    }
    assert FindTask([Task2, Task3, Task4, Task5, Task6, Task7, Task8], "3") == FindTask([Task3, Task4, Task5, Task6, Task7, Task8], "3") by {
      assert [Task2, Task3, Task4, Task5, Task6, Task7, Task8][1..] == [Task3, Task4, Task5, Task6, Task7, Task8];
    }
    assert FindTask([Task2, Task3, Task4, Task5, Task6, Task7, Task8], "4") == Some(Task4) by {
      assert [Task2, Task3, Task4, Task5, Task6, Task7, Task8][1..] == [Task3, Task4, Task5, Task6, Task7, Task8];
    }
    assert FindTask([Task1, Task2, Task3, Task4, Task5, Task6, Task7, Task8], "3") == FindTask([Task2, Task3, Task4, Task5, Task6, Task7, Task8], "3") by {
      assert [Task1, Task2, Task3, Task4, Task5, Task6, Task7, Task8][1..] == [Task2, Task3, Task4, Task5, Task6, Task7, Task8];
    }
    assert FindTask([Task1, Task2, Task3, Task4, Task5, Task6, Task7, Task8], "4") == Some(Task4) by {
      assert [Task1, Task2, Task3, Task4, Task5, Task6, Task7, Task8][1..] == [Task2, Task3, Task4, Task5, Task6, Task7, Task8];
    }
  }

  /** The security audit milestone depends on the database migration and the API
      development, in that order. */
  lemma SampleDependencyNames()
    ensures DependencyNames(Task5, SampleTasks) == ["Database Migration", "API Development"]
  {
    var names := DependencyNames(Task5, SampleTasks);
    SampleMilestoneDependencies();
    assert |names| == 2 && names[0] == Task3.name && names[1] == Task4.name;
  }

  /** The two ids of the security audit both resolve, to tasks 3 and 4. */
  lemma SampleMilestoneDependencies()
    ensures ResolveDependencies(Task5.dependencies, SampleTasks) == [Task3, Task4]
  {
    var ids: seq<string> := ["3", "4"];
    SampleLookups();
    assert ResolveDependencies(ids[1..], SampleTasks) == [Task4] by {
      assert ids[1..][1..] == [];
    }
    assert ResolveDependencies(ids, SampleTasks) == [Task3] + [Task4];
  }

  /** An id that matches no sample task, such as "99", adds no badge. */
  lemma DanglingDependencyShowsNothing(t: GanttTask)
    requires t.dependencies == ["3", "99", "4"]
    ensures DependencyNames(t, SampleTasks) == DependencyNames(t.(dependencies := ["3", "4"]), SampleTasks)
  {
    SampleSkipsNinetyNine();
  }

  lemma SampleSkipsNinetyNine()
    ensures ResolveDependencies(["3", "99", "4"], SampleTasks)
         == ResolveDependencies(["3", "4"], SampleTasks)
  {
    NoSampleIdNinetyNine();
    DanglingIdIgnored(["3"], "99", ["4"], SampleTasks);
    assert ["3"] + ["99"] + ["4"] == ["3", "99", "4"];
    assert ["3"] + ["4"] == ["3", "4"];
  }

  lemma NoSampleIdNinetyNine()
    ensures forall i :: 0 <= i < |SampleTasks| ==> SampleTasks[i].id != "99"
  {
    var s := SampleTasks;
    assert s == [Task1, Task2, Task3, Task4, Task5, Task6, Task7, Task8];
  }
}
