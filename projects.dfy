/** The project list page: status and priority badges, the search and status filter,
    the status label and the team avatars of each card. */
module Projects {
  import opened Wrappers
  import opened Lists
  import opened Text
  import opened Badges
  import opened Search

  /** A project record as the page reads it from the local store. The status and the
      priority are kept as strings, because the badge mappings accept any string. */
  datatype Project = Project(
    id: string,
    name: string,
    description: string,
    status: string,
    priority: string,
    assignedTo: seq<string>,
    dueDate: Option<string>,
    tags: seq<string>,
    progress: int)

  /** `getStatusColor` of the project list: active is the default variant, completed
      is secondary, cancelled is destructive, and on hold, planning or any other string
      is outlined. */
  function StatusVariant(status: string): (v: BadgeVariant)
    ensures v == Default <==> status == "active"
    ensures v == Secondary <==> status == "completed"
    ensures v == Destructive <==> status == "cancelled"
    ensures v == Outline <==> status != "active" && status != "completed" && status != "cancelled"
  {
    match status
    case "active" => Default
    case "completed" => Secondary
    case "on_hold" => Outline
    case "planning" => Outline
    case "cancelled" => Destructive
    case _ => Outline
  }

  /** The priority badge of a project card. */
  function PriorityBadge(p: Project): (v: BadgeVariant)
    ensures v == Outline <==> p.priority !in {"critical", "high", "medium"}
  {
    PriorityVariant(p.priority)
  }

  /** The filter applied to the project list. */
  predicate Keeps(p: Project, searchTerm: string, filterStatus: string) {
    MatchesSearch(p.name, p.description, searchTerm) && MatchesStatus(p.status, filterStatus)
  }

  /** `filteredProjects`: the projects that match the search term and the status
      filter, in their original order. */
  function FilteredProjects(projects: seq<Project>, searchTerm: string, filterStatus: string): (r: seq<Project>)
    ensures IsSubsequence(r, projects)
    ensures forall i :: 0 <= i < |r| ==> r[i] in projects && Keeps(r[i], searchTerm, filterStatus)
    ensures forall i :: 0 <= i < |projects| && Keeps(projects[i], searchTerm, filterStatus) ==> projects[i] in r
    ensures filterStatus != "all" ==> forall i :: 0 <= i < |r| ==> r[i].status == filterStatus
    ensures forall x | x in projects ::
      multiset(r)[x] == if Keeps(x, searchTerm, filterStatus) then multiset(projects)[x] else 0
  {
    FilterIsSubsequence(projects, p => Keeps(p, searchTerm, filterStatus));
    FilterMultiplicity(projects, p => Keeps(p, searchTerm, filterStatus));
    Filter(projects, p => Keeps(p, searchTerm, filterStatus))
  }

  /** An empty search with the selector on "all" shows every project. */
  lemma EmptySearchKeepsAll(projects: seq<Project>)
    ensures FilteredProjects(projects, "", "all") == projects
  {
    forall i | 0 <= i < |projects|
      ensures Keeps(projects[i], "", "all")
    {
      EmptySearchMatches(projects[i].name, projects[i].description);
    }
    FilterKeepsAll(projects, p => Keeps(p, "", "all"));
  }

  /** The case of the search term does not change the list. */
  lemma FilterIgnoresCase(projects: seq<Project>, searchTerm: string, filterStatus: string)
    ensures FilteredProjects(projects, Upper(searchTerm), filterStatus)
         == FilteredProjects(projects, searchTerm, filterStatus)
    ensures FilteredProjects(projects, Lower(searchTerm), filterStatus)
         == FilteredProjects(projects, searchTerm, filterStatus)
  {
    forall i | 0 <= i < |projects|
      ensures Keeps(projects[i], Upper(searchTerm), filterStatus) == Keeps(projects[i], searchTerm, filterStatus)
      ensures Keeps(projects[i], Lower(searchTerm), filterStatus) == Keeps(projects[i], searchTerm, filterStatus)
    {
      SearchIgnoresCase(projects[i].name, projects[i].description, searchTerm);
    }
    FilterCongruent(projects, p => Keeps(p, Upper(searchTerm), filterStatus),
      p => Keeps(p, searchTerm, filterStatus));
    FilterCongruent(projects, p => Keeps(p, Lower(searchTerm), filterStatus),
      p => Keeps(p, searchTerm, filterStatus));
  }

  /** The text of the status badge: the first underscore becomes a space. */
  function StatusLabel(status: string): (text: string)
    ensures |text| == |status|
    ensures '_' !in status ==> text == status
    ensures '_' in status ==> exists k :: 0 <= k < |status| && status[k] == '_' && '_' !in status[..k]
                                && text == status[..k] + " " + status[k + 1..]
  {
    ReplaceFirst(status, '_', ' ')
  }

  /** The on-hold status reads "on hold". */
  lemma OnHoldLabel()
    ensures StatusLabel("on_hold") == "on hold"
  {
    assert '_' !in "on_hold"[..2];
    ReplaceFirstAt("on_hold", '_', ' ', 2);
  }

  /** The other four statuses a project can carry have no underscore and read as
      written. */
  lemma PlainStatusLabels()
    ensures StatusLabel("planning") == "planning" && StatusLabel("active") == "active"
    ensures StatusLabel("completed") == "completed" && StatusLabel("cancelled") == "cancelled"
  {
    assert '_' !in "planning";
    assert '_' !in "active";
    assert '_' !in "completed";
    assert '_' !in "cancelled";
  }

  /** Only the first underscore is replaced: every character after it, underscores
      included, is kept. */
  lemma LaterUnderscoresKept(status: string, first: int, k: int)
    requires 0 <= first < k < |status| && status[first] == '_' && '_' !in status[..first]
    ensures StatusLabel(status)[k] == status[k]
    ensures StatusLabel(status)[first] == ' '
  {
    ReplaceFirstAt(status, '_', ' ', first);
    var text := status[..first] + " " + status[first + 1..];
    assert text[k] == status[first + 1..][k - first - 1];
  }

  /** The team row of a card: up to three lettered avatars and, for a larger team, a
      badge counting the rest. */
  datatype TeamRow = TeamRow(avatars: seq<char>, overflow: Option<nat>)

  /** `Math.min` on counts of people (the chart has its own on percentages). */
  function Min(a: int, b: int): int { if a <= b then a else b }

  /** The team row, shown only when someone is assigned. */
  function Team(assignedTo: seq<string>): (row: Option<TeamRow>)
    ensures row.None? <==> assignedTo == []
    ensures row.Some? ==>
      |row.value.avatars| == Min(|assignedTo|, 3)
      && (forall i :: 0 <= i < |row.value.avatars| ==> row.value.avatars[i] as int == 'A' as int + i)
      && (row.value.overflow.Some? <==> |assignedTo| > 3)
      && (row.value.overflow.Some? ==> row.value.overflow.value == |assignedTo| - 3)
  {
    if assignedTo == [] then None
    else
      var shown := Min(|assignedTo|, 3);
      var avatars := seq(shown, i requires 0 <= i < shown => (65 + i) as char);
      Some(TeamRow(avatars, if |assignedTo| > 3 then Some(|assignedTo| - 3) else None))
  }

  /** Every assigned person is accounted for once: by an avatar or by the overflow
      count. */
  lemma TeamAccountsForEveryone(assignedTo: seq<string>)
    requires assignedTo != []
    ensures var row := Team(assignedTo).value;
      |row.avatars| + (if row.overflow.Some? then row.overflow.value else 0) == |assignedTo|
  {
  }

  /** A team of five shows A, B, C and "+2". */
  lemma TeamOfFive(assignedTo: seq<string>)
    requires |assignedTo| == 5
    ensures Team(assignedTo) == Some(TeamRow("ABC", Some(2)))
  {
    var row := Team(assignedTo).value;
    assert row.avatars == "ABC";
  }
}
