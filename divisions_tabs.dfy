/**
 * The public division tabs: one tab per division, one of them active,
 * and a panel showing the active division and its first projects.
 */
module DivisionsTabs {
  import opened Wrappers
  import opened IconMapper

  /** A project as the panel lists it. */
  datatype TabProject = TabProject(id: string, title: string, description: string,
                                   githubUrl: Option<string>)

  /** A division as the page hands it to the tabs, with its projects. */
  datatype TabDivision = TabDivision(id: string, slug: string, title: string, description: string,
                                     iconName: string, projects: seq<TabProject>)

  /** The tab icon table: the four division icons plus `FolderKanban`,
      falling back to `FolderKanban` for any other name. */
  function TabIcon(name: string): (r: Icon)
    ensures IconName(r) == name <==>
      name == "AppWindow" || name == "Network" || name == "Cpu" || name == "Clapperboard"
      || name == "FolderKanban"
    ensures IconName(r) != name ==> r == FolderKanban
  {
    var iconMap := map["AppWindow" := AppWindow, "Network" := Network, "Cpu" := Cpu,
                       "Clapperboard" := Clapperboard, "FolderKanban" := FolderKanban];
    if name in iconMap then iconMap[name] else FolderKanban
  }

  /** The tabs agree with `getIconByName` except that their fallback is
      `FolderKanban` instead of `HelpCircle`. */
  lemma TabIconAgrees(name: string)
    ensures TabIcon(name) == if GetIconByName(name) == HelpCircle then FolderKanban else GetIconByName(name)
  {
  }

  /** The tab of `d` is highlighted. */
  predicate IsActive(activeTab: string, d: TabDivision) {
    activeTab == d.slug
  }

  predicate SlugsDistinct(divisions: seq<TabDivision>) {
    forall i, j :: 0 <= i < j < |divisions| ==> divisions[i].slug != divisions[j].slug
  }

  /** `divisions.find(d => d.slug === slug)`, as an index from `from` on. */
  function FindBySlug(divisions: seq<TabDivision>, slug: string, from: nat): (r: Option<nat>)
    requires from <= |divisions|
    ensures r.Some? ==> from <= r.value < |divisions| && divisions[r.value].slug == slug
    ensures forall j :: from <= j < |divisions| && (r.None? || j < r.value) ==> divisions[j].slug != slug
    decreases |divisions| - from
  {
    if from == |divisions| then None
    else if divisions[from].slug == slug then Some(from)
    else FindBySlug(divisions, slug, from + 1)
  }

  /** `activeData`: the first division whose slug is the active tab, or the
      first division when none is. */
  function ActiveData(divisions: seq<TabDivision>, activeTab: string): (r: TabDivision)
    requires |divisions| > 0
    ensures r in divisions
    ensures (exists i :: 0 <= i < |divisions| && divisions[i].slug == activeTab) ==>
      exists i :: 0 <= i < |divisions| && divisions[i] == r && r.slug == activeTab
                  && forall j :: 0 <= j < i ==> divisions[j].slug != activeTab
    ensures (forall i :: 0 <= i < |divisions| ==> divisions[i].slug != activeTab) ==> r == divisions[0]
  {
    match FindBySlug(divisions, activeTab, 0)
    case Some(i) =>
      assert divisions[i].slug == activeTab && forall j :: 0 <= j < i ==> divisions[j].slug != activeTab;
      divisions[i]
    case None => divisions[0]
  }

  /** `HeroIcon`: the icon of the active division. */
  function HeroIcon(divisions: seq<TabDivision>, activeTab: string): (r: Icon)
    requires |divisions| > 0
    ensures var name := ActiveData(divisions, activeTab).iconName;
            && (IconName(r) == name <==>
                  name == "AppWindow" || name == "Network" || name == "Cpu" || name == "Clapperboard"
                  || name == "FolderKanban")
            && (IconName(r) != name ==> r == FolderKanban)
  {
    TabIcon(ActiveData(divisions, activeTab).iconName)
  }

  /** `projects.slice(0, 4)`: the first four projects, in order. */
  function ShownProjects(projects: seq<TabProject>): (r: seq<TabProject>)
    ensures |r| == if |projects| < 4 then |projects| else 4
    ensures forall i :: 0 <= i < |r| ==> r[i] == projects[i]
  {
    if |projects| <= 4 then projects else projects[..4]
  }

  /** `p.githubUrl || "#"`: where a project card links to. */
  function ProjectLink(p: TabProject): (r: string)
    ensures r != ""
    ensures p.githubUrl.Some? && p.githubUrl.value != "" ==> r == p.githubUrl.value
    ensures p.githubUrl.None? || p.githubUrl.value == "" ==> r == "#"
  {
    match p.githubUrl
    case Some(url) => if url == "" then "#" else url
    case None => "#"
  }

  /** With distinct slugs, at most one tab is highlighted. */
  lemma AtMostOneActive(divisions: seq<TabDivision>, activeTab: string, i: nat, j: nat)
    requires SlugsDistinct(divisions)
    requires i < |divisions| && j < |divisions|
    requires IsActive(activeTab, divisions[i]) && IsActive(activeTab, divisions[j])
    ensures i == j
  {
  }

  /** The tab selected by a click is the one whose division the panel
      shows, when slugs are distinct. */
  lemma SelectedIsShown(divisions: seq<TabDivision>, i: nat)
    requires SlugsDistinct(divisions)
    requires i < |divisions|
    ensures ActiveData(divisions, divisions[i].slug) == divisions[i]
  {
    var r := FindBySlug(divisions, divisions[i].slug, 0);
    assert forall j :: 0 <= j < |divisions| && divisions[j].slug == divisions[i].slug ==> j == i;
    assert r == Some(i);
  }

  /** The tab strip: the list it was given and the `activeTab` state. */
  class Tabs {
    const divisions: seq<TabDivision>
    var activeTab: string

    /** `useState(divisions[0]?.slug || "")`. */
    constructor (divisions: seq<TabDivision>)
      ensures this.divisions == divisions
      ensures activeTab == if |divisions| > 0 then divisions[0].slug else ""
    {
      this.divisions := divisions;
      activeTab := if |divisions| > 0 then divisions[0].slug else "";
    }

    /** The division the panel shows. */
    function Active(): TabDivision
      requires |divisions| > 0
      reads this
    {
      ActiveData(divisions, activeTab)
    }

    /** The click handler of tab `i`: `setActiveTab(div.slug)`. */
    method Select(i: nat)
      requires i < |divisions|
      modifies this
      ensures activeTab == divisions[i].slug
      ensures SlugsDistinct(divisions) ==> Active() == divisions[i]
    {
      activeTab := divisions[i].slug;
      if SlugsDistinct(divisions) {
        SelectedIsShown(divisions, i);
      }
    }
  }

  /** Before any click the first division is shown and its tab is highlighted. */
  lemma InitiallyFirst(divisions: seq<TabDivision>)
    requires |divisions| > 0
    ensures ActiveData(divisions, divisions[0].slug) == divisions[0]
    ensures IsActive(divisions[0].slug, divisions[0])
  {
  }
}
