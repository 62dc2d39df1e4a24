/** The task list page: its built-in sample tasks, the status and priority badges, and
    the search and status filter. */
module Tasks {
  import opened Lists
  import opened Text
  import opened Badges
  import opened Search

  /** A task of the page's built-in list. */
  datatype TaskItem = TaskItem(
    id: string,
    title: string,
    description: string,
    status: string,
    priority: string,
    assignedTo: string,
    dueDate: string,
    project: string,
    tags: seq<string>)

  const Task1: TaskItem := TaskItem("1", "Update Mifos integration documentation",
    "Review and update API documentation for the Mifos banking system integration",
    "in_progress", "high", "John Doe", "2024-02-10", "Core Systems", ["documentation", "mifos"])
  const Task2: TaskItem := TaskItem("2", "Implement automated backup system",
    "Set up automated daily backups for all critical databases",
    "todo", "critical", "Jane Smith", "2024-02-08", "Infrastructure", ["backup", "automation"])
  const Task3: TaskItem := TaskItem("3", "Client portal performance optimization",
    "Optimize loading times for the client dashboard",
    "review", "medium", "Mike Johnson", "2024-02-15", "Client Experience", ["performance", "frontend"])

  /** The page's sample tasks, in display order. */
  const SampleTasks: seq<TaskItem> := [Task1, Task2, Task3]

  /** `getStatusColor` of the task list: done is the default variant, in progress is
      secondary, and review, todo or any other string is outlined. */
  function StatusVariant(status: string): (v: BadgeVariant)
    ensures v == Default <==> status == "done"
    ensures v == Secondary <==> status == "in_progress"
    ensures v == Outline <==> status != "done" && status != "in_progress"
    ensures v != Destructive
  {
    match status
    case "done" => Default
    case "in_progress" => Secondary
    case "review" => Outline
    case "todo" => Outline
    case _ => Outline
  }

  /** The badges of the sample tasks: the high-priority task in progress, the critical
      task to do, and the medium-priority task in review. */
  lemma SampleBadges()
    ensures StatusVariant(Task1.status) == Secondary && PriorityVariant(Task1.priority) == Default
    ensures StatusVariant(Task2.status) == Outline && PriorityVariant(Task2.priority) == Destructive
    ensures StatusVariant(Task3.status) == Outline && PriorityVariant(Task3.priority) == Secondary
  {
  }

  /** The filter applied to the task list. */
  predicate Keeps(t: TaskItem, searchTerm: string, filterStatus: string) {
    MatchesSearch(t.title, t.description, searchTerm) && MatchesStatus(t.status, filterStatus)
  }

  /** `filteredTasks`: the tasks whose title or description contains the search term,
      ignoring case, and whose status passes the selector, in their original order. */
  function FilteredTasks(tasks: seq<TaskItem>, searchTerm: string, filterStatus: string): (r: seq<TaskItem>)
    ensures IsSubsequence(r, tasks)
    ensures forall i :: 0 <= i < |r| ==> r[i] in tasks && Keeps(r[i], searchTerm, filterStatus)
    ensures forall i :: 0 <= i < |tasks| && Keeps(tasks[i], searchTerm, filterStatus) ==> tasks[i] in r
    ensures filterStatus != "all" ==> forall i :: 0 <= i < |r| ==> r[i].status == filterStatus
    ensures forall x | x in tasks ::
      multiset(r)[x] == if Keeps(x, searchTerm, filterStatus) then multiset(tasks)[x] else 0
  {
    FilterIsSubsequence(tasks, t => Keeps(t, searchTerm, filterStatus));
    FilterMultiplicity(tasks, t => Keeps(t, searchTerm, filterStatus));
    Filter(tasks, t => Keeps(t, searchTerm, filterStatus))
  }

  /** An empty search with the selector on "all" shows every task. */
  lemma EmptySearchKeepsAll(tasks: seq<TaskItem>)
    ensures FilteredTasks(tasks, "", "all") == tasks
  {
    forall i | 0 <= i < |tasks|
      ensures Keeps(tasks[i], "", "all")
    {
      EmptySearchMatches(tasks[i].title, tasks[i].description);
    }
    FilterKeepsAll(tasks, t => Keeps(t, "", "all"));
  }

  /** The case of the search term does not change the list. */
  lemma FilterIgnoresCase(tasks: seq<TaskItem>, searchTerm: string, filterStatus: string)
    ensures FilteredTasks(tasks, Upper(searchTerm), filterStatus)
         == FilteredTasks(tasks, searchTerm, filterStatus)
  {
    forall i | 0 <= i < |tasks|
      ensures Keeps(tasks[i], Upper(searchTerm), filterStatus) == Keeps(tasks[i], searchTerm, filterStatus)
    {
      SearchIgnoresCase(tasks[i].title, tasks[i].description, searchTerm);
    }
    FilterCongruent(tasks, t => Keeps(t, Upper(searchTerm), filterStatus),
      t => Keeps(t, searchTerm, filterStatus));
  }

  /** An empty search shows all three sample tasks. */
  lemma SampleAllShown()
    ensures FilteredTasks(SampleTasks, "", "all") == [Task1, Task2, Task3]
  {
    EmptySearchKeepsAll(SampleTasks);
  }

  /** The "todo" selector with an empty search accepts the second sample task only. */
  lemma TodoAcceptsTaskTwoOnly()
    ensures !Keeps(Task1, "", "todo") && Keeps(Task2, "", "todo") && !Keeps(Task3, "", "todo")
  {
    EmptySearchMatches(Task2.title, Task2.description);
  }

  /** With the selector on "todo" only the backup task, id "2", is shown. */
  lemma SampleTodoShowsTaskTwo()
    ensures FilteredTasks(SampleTasks, "", "todo") == [Task2]
  {
    var p := (t: TaskItem) => Keeps(t, "", "todo");
    TodoAcceptsTaskTwoOnly();
    var tail := Filter([Task2, Task3], p);
    assert tail == [Task2] by {
      assert [Task2, Task3][1..] == [Task3];
      assert [Task3][1..] == [];
      assert Filter([Task3], p) == [];
    }
    assert [Task1, Task2, Task3][1..] == [Task2, Task3];
  }
}
