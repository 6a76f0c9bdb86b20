/**
 * What each content server action does to the tables, as a function of
 * the tables before and the submitted form: either it completes, writes
 * its row(s) and names the admin path it revalidates, or it throws and
 * nothing changes.
 */
module CmsSpec {
  import opened Wrappers
  import opened Web
  import opened CmsModel
  import opened CmsInput

  /** `Done` carries the path passed to `revalidatePath`. */
  datatype Outcome = Done(revalidated: string) | Failed(error: CmsError)

  datatype Step = Step(tables: Tables, outcome: Outcome)

  const AdminPath := "/admin"
  const DivisionsPath := "/admin/divisions"
  const ProjectsPath := "/admin/projects"
  const MembersPath := "/admin/members"
  const AchievementsPath := "/admin/achievements"
  const TechStackPath := "/admin/tech-stack"

  /** The four divisions the bootstrap action guarantees. */
  const Seeds: seq<Division> := [
    Division("Software Engineering", "software", "Web, Mobile, and AI development.",
             "AppWindow", Some("text-blue-600")),
    Division("Computer Networks", "network", "Cloud, Security, and Infrastructure.",
             "Network", Some("text-emerald-600")),
    Division("Embedded Systems", "embedded", "IoT, Robotics, and Hardware.",
             "Cpu", Some("text-orange-600")),
    Division("Multimedia", "multimedia", "UI/UX, Game Dev, and Creative Tech.",
             "Clapperboard", Some("text-purple-600"))
  ]

  // ---------------------------------------------------------------------
  // initializeSystem

  /** Ids the database may hand out to `count` new rows: distinct and unused. */
  predicate FreshIds(divisions: map<Id, Division>, ids: seq<Id>, count: nat) {
    |ids| == count
    && (forall i, j :: 0 <= i < j < |ids| ==> ids[i] != ids[j])
    && (forall i :: 0 <= i < |ids| ==> ids[i] !in divisions)
  }

  /** `upsert({ where: { slug }, update: {}, create: d })`: a division
      whose slug exists is left exactly as it is; otherwise `d` is added
      under `id`. */
  function Upsert(divisions: map<Id, Division>, d: Division, id: Id): (r: map<Id, Division>)
    ensures HasSlug(divisions, d.slug) ==> r == divisions
    ensures !HasSlug(divisions, d.slug) ==> r == divisions[id := d]
    ensures HasSlug(r, d.slug)
    ensures r.Keys <= divisions.Keys + {id}
  {
    if HasSlug(divisions, d.slug) then divisions
    else
      var r := divisions[id := d];
      assert r[id].slug == d.slug;
      r
  }

  /** The upserts of `seeds[0]`, ..., `seeds[|seeds|-1]`, in that order,
      row `i` created under `ids[i]`; no row under any other id appears. */
  function UpsertAll(divisions: map<Id, Division>, seeds: seq<Division>, ids: seq<Id>)
    : (r: map<Id, Division>)
    requires |ids| == |seeds|
    ensures forall k :: k in r ==> k in divisions || k in ids
    decreases |seeds|
  {
    if seeds == [] then divisions
    else
      var n := |seeds| - 1;
      var before := UpsertAll(divisions, seeds[..n], ids[..n]);
      assert forall k :: k in ids[..n] ==> k in ids;
      Upsert(before, seeds[n], ids[n])
  }

  /** Every row the upserts add is one of the seeds. */
  lemma {:induction false} UpsertAllAddsSeeds(divisions: map<Id, Division>, seeds: seq<Division>, ids: seq<Id>)
    requires |ids| == |seeds|
    ensures forall k :: k in UpsertAll(divisions, seeds, ids) && k !in divisions ==>
              UpsertAll(divisions, seeds, ids)[k] in seeds
    decreases |seeds|
  {
    if seeds != [] {
      var n := |seeds| - 1;
      UpsertAllAddsSeeds(divisions, seeds[..n], ids[..n]);
      assert forall d :: d in seeds[..n] ==> d in seeds;
    }
  }

  /** The id of the last upsert is still unused when it runs. */
  lemma LastIdFresh(divisions: map<Id, Division>, seeds: seq<Division>, ids: seq<Id>)
    requires FreshIds(divisions, ids, |seeds|) && |seeds| > 0
    ensures FreshIds(divisions, ids[..|seeds| - 1], |seeds| - 1)
    ensures ids[|seeds| - 1] !in UpsertAll(divisions, seeds[..|seeds| - 1], ids[..|seeds| - 1])
  {
    var n := |seeds| - 1;
    assert forall j :: 0 <= j < n ==> ids[..n][j] == ids[j];
  }

  /** An upsert under an unused id keeps every row. */
  lemma UpsertKeeps(divisions: map<Id, Division>, d: Division, id: Id)
    requires id !in divisions
    ensures forall k :: k in divisions ==> k in Upsert(divisions, d, id) && Upsert(divisions, d, id)[k] == divisions[k]
  {
  }

  /** Upserts under unused ids keep every row that was there. */
  lemma {:induction false} UpsertAllKeeps(divisions: map<Id, Division>, seeds: seq<Division>, ids: seq<Id>)
    requires FreshIds(divisions, ids, |seeds|)
    ensures forall k :: k in divisions ==>
              k in UpsertAll(divisions, seeds, ids) && UpsertAll(divisions, seeds, ids)[k] == divisions[k]
    decreases |seeds|
  {
    if seeds != [] {
      var n := |seeds| - 1;
      LastIdFresh(divisions, seeds, ids);
      UpsertAllKeeps(divisions, seeds[..n], ids[..n]);
      UpsertKeeps(UpsertAll(divisions, seeds[..n], ids[..n]), seeds[n], ids[n]);
    }
  }

  /** After the upserts the slug of seed `i` is present. */
  lemma {:induction false} UpsertAllHas(divisions: map<Id, Division>, seeds: seq<Division>, ids: seq<Id>, i: nat)
    requires FreshIds(divisions, ids, |seeds|) && i < |seeds|
    ensures HasSlug(UpsertAll(divisions, seeds, ids), seeds[i].slug)
    decreases |seeds|
  {
    var n := |seeds| - 1;
    if i < n {
      var before := UpsertAll(divisions, seeds[..n], ids[..n]);
      assert seeds[..n][i] == seeds[i];
      LastIdFresh(divisions, seeds, ids);
      UpsertAllHas(divisions, seeds[..n], ids[..n], i);
      KeepsSlug(before, seeds[n], ids[n], seeds[i].slug);
    }
  }

  /** After the upserts every seed slug is present. */
  lemma UpsertAllCovers(divisions: map<Id, Division>, seeds: seq<Division>, ids: seq<Id>)
    requires FreshIds(divisions, ids, |seeds|)
    ensures forall i :: 0 <= i < |seeds| ==> HasSlug(UpsertAll(divisions, seeds, ids), seeds[i].slug)
  {
    forall i | 0 <= i < |seeds|
      ensures HasSlug(UpsertAll(divisions, seeds, ids), seeds[i].slug)
    {
      UpsertAllHas(divisions, seeds, ids, i);
    }
  }

  /** An upsert under an unused id never removes a slug. */
  lemma KeepsSlug(divisions: map<Id, Division>, d: Division, id: Id, slug: string)
    requires id !in divisions && HasSlug(divisions, slug)
    ensures HasSlug(Upsert(divisions, d, id), slug)
  {
    var k :| k in divisions && divisions[k].slug == slug;
    UpsertKeeps(divisions, d, id);
    assert Upsert(divisions, d, id)[k].slug == slug;
  }

  /** An upsert under an unused id never creates a second division with
      an existing slug. */
  lemma UpsertKeepsSlugsUnique(divisions: map<Id, Division>, d: Division, id: Id)
    requires id !in divisions && SlugsUnique(divisions)
    ensures SlugsUnique(Upsert(divisions, d, id))
  {
  }

  /** The upserts never create a second division with an existing slug. */
  lemma {:induction false} UpsertAllKeepsSlugsUnique(divisions: map<Id, Division>, seeds: seq<Division>, ids: seq<Id>)
    requires FreshIds(divisions, ids, |seeds|)
    requires SlugsUnique(divisions)
    ensures SlugsUnique(UpsertAll(divisions, seeds, ids))
    decreases |seeds|
  {
    if seeds != [] {
      var n := |seeds| - 1;
      LastIdFresh(divisions, seeds, ids);
      UpsertAllKeepsSlugsUnique(divisions, seeds[..n], ids[..n]);
      UpsertKeepsSlugsUnique(UpsertAll(divisions, seeds[..n], ids[..n]), seeds[n], ids[n]);
    }
  }

  /** Upserting seeds whose slugs are all present changes nothing. */
  lemma {:induction false} UpsertAllPresent(divisions: map<Id, Division>, seeds: seq<Division>, ids: seq<Id>)
    requires |ids| == |seeds|
    requires forall i :: 0 <= i < |seeds| ==> HasSlug(divisions, seeds[i].slug)
    ensures UpsertAll(divisions, seeds, ids) == divisions
    decreases |seeds|
  {
    if seeds != [] {
      var n := |seeds| - 1;
      assert forall i :: 0 <= i < n ==> seeds[..n][i] == seeds[i];
      UpsertAllPresent(divisions, seeds[..n], ids[..n]);
    }
  }

  /** `initializeSystem`: every seed slug is present afterwards, every
      row that was there is untouched, and the store stays consistent. */
  function InitializeSystem(t: Tables, ids: seq<Id>): (r: Step)
    requires FreshIds(t.divisions, ids, |Seeds|)
    ensures r.outcome == Done(AdminPath)
    ensures forall i :: 0 <= i < |Seeds| ==> HasSlug(r.tables.divisions, Seeds[i].slug)
    ensures forall k :: k in t.divisions ==> k in r.tables.divisions && r.tables.divisions[k] == t.divisions[k]
    ensures forall k :: k in r.tables.divisions && k !in t.divisions ==> k in ids && r.tables.divisions[k] in Seeds
    ensures r.tables == t.(divisions := r.tables.divisions)
    ensures Consistent(t) ==> Consistent(r.tables)
  {
    UpsertAllCovers(t.divisions, Seeds, ids);
    UpsertAllKeeps(t.divisions, Seeds, ids);
    UpsertAllAddsSeeds(t.divisions, Seeds, ids);
    var divisions := UpsertAll(t.divisions, Seeds, ids);
    assert Consistent(t) ==> Consistent(t.(divisions := divisions)) by {
      if Consistent(t) {
        UpsertAllKeepsSlugsUnique(t.divisions, Seeds, ids);
        OwnedGrow(t, divisions);
      }
    }
    Step(t.(divisions := divisions), Done(AdminPath))
  }

  /** Running the bootstrap twice leaves the store as running it once,
      whatever ids the second run is offered. */
  lemma InitializeSystemIdempotent(t: Tables, ids1: seq<Id>, ids2: seq<Id>)
    requires FreshIds(t.divisions, ids1, |Seeds|)
    requires FreshIds(InitializeSystem(t, ids1).tables.divisions, ids2, |Seeds|)
    ensures InitializeSystem(InitializeSystem(t, ids1).tables, ids2) == InitializeSystem(t, ids1)
  {
    var once := InitializeSystem(t, ids1).tables;
    UpsertAllPresent(once.divisions, Seeds, ids2);
  }

  /** The four slugs the bootstrap guarantees. */
  lemma InitializeSystemSlugs(t: Tables, ids: seq<Id>)
    requires FreshIds(t.divisions, ids, |Seeds|)
    ensures var d := InitializeSystem(t, ids).tables.divisions;
            HasSlug(d, "software") && HasSlug(d, "network") && HasSlug(d, "embedded") && HasSlug(d, "multimedia")
  {
    assert Seeds[0].slug == "software" && Seeds[1].slug == "network";
    assert Seeds[2].slug == "embedded" && Seeds[3].slug == "multimedia";
  }

  // ---------------------------------------------------------------------
  // Divisions

  /** The row `createDivision` writes; `colorClass` is not set. */
  function NewDivision(f: DivisionFields): (r: Division)
    ensures r.colorClass.None?
    ensures r.title == f.title && r.slug == f.slug && r.description == f.description && r.iconName == f.iconName
  {
    Division(f.title, f.slug, f.description, f.iconName, None)
  }

  /** The row `updateDivision` leaves: the four submitted columns are
      rewritten, `colorClass` is kept. */
  function RewriteDivision(d: Division, f: DivisionFields): (r: Division)
    ensures r.colorClass == d.colorClass
    ensures NewDivision(f) == r.(colorClass := None)
  {
    d.(title := f.title, slug := f.slug, description := f.description, iconName := f.iconName)
  }

  function CreateDivision(t: Tables, form: Entries, newId: Id): (r: Step)
    requires newId !in t.divisions
    ensures Consistent(t) ==> Consistent(r.tables)
    ensures r.outcome.Failed? ==> r.tables == t
    ensures r.outcome.Done? <==> DivisionFieldsFromForm(form).Success?
                                 && !HasSlug(t.divisions, DivisionFieldsFromForm(form).value.slug)
    ensures r.outcome.Done? ==>
              && r.outcome.revalidated == DivisionsPath
              && Inserted(t.divisions, r.tables.divisions, newId, NewDivision(DivisionFieldsFromForm(form).value))
              && r.tables == t.(divisions := r.tables.divisions)
  {
    match DivisionFieldsFromForm(form)
    case Failure(e) => Step(t, Failed(e))
    case Success(f) =>
      if HasSlug(t.divisions, f.slug) then Step(t, Failed(DuplicateSlug(f.slug)))
      else Step(t.(divisions := t.divisions[newId := NewDivision(f)]), Done(DivisionsPath))
  }

  function UpdateDivision(t: Tables, form: Entries): (r: Step)
    ensures Consistent(t) ==> Consistent(r.tables)
    ensures r.outcome.Failed? ==> r.tables == t
    ensures r.outcome.Done? <==> && Lookup(form, "id").Some? && Lookup(form, "id").value in t.divisions
                                 && DivisionFieldsFromForm(form).Success?
                                 && !SlugUsedByOther(t.divisions, DivisionFieldsFromForm(form).value.slug,
                                                     Lookup(form, "id").value)
    ensures r.outcome.Done? ==>
              var id := Lookup(form, "id").value;
              && r.outcome.revalidated == DivisionsPath
              && Replaced(t.divisions, r.tables.divisions, id,
                          RewriteDivision(t.divisions[id], DivisionFieldsFromForm(form).value))
              && r.tables == t.(divisions := r.tables.divisions)
  {
    match Required(form, "id")
    case Failure(e) => Step(t, Failed(e))
    case Success(id) =>
      match DivisionFieldsFromForm(form)
      case Failure(e) => Step(t, Failed(e))
      case Success(f) =>
        if id !in t.divisions then Step(t, Failed(NotFound(id)))
        else if SlugUsedByOther(t.divisions, f.slug, id) then Step(t, Failed(DuplicateSlug(f.slug)))
        else Step(t.(divisions := t.divisions[id := RewriteDivision(t.divisions[id], f)]), Done(DivisionsPath))
  }

  /** `deleteDivision`: refused while any row still belongs to it. */
  function DeleteDivision(t: Tables, id: Id): (r: Step)
    ensures Consistent(t) ==> Consistent(r.tables)
    ensures r.outcome.Failed? ==> r.tables == t
    ensures r.outcome.Done? <==> id in t.divisions && !Owns(t, id)
    ensures r.outcome.Done? ==>
              && r.outcome.revalidated == DivisionsPath
              && Removed(t.divisions, r.tables.divisions, id)
              && r.tables == t.(divisions := r.tables.divisions)
  {
    if id !in t.divisions then Step(t, Failed(NotFound(id)))
    else if Owns(t, id) then Step(t, Failed(HasDependents(id)))
    else Step(t.(divisions := t.divisions - {id}), Done(DivisionsPath))
  }

  // ---------------------------------------------------------------------
  // Projects

  function CreateProject(t: Tables, form: Entries, newId: Id): (r: Step)
    requires newId !in t.projects
    ensures Consistent(t) ==> Consistent(r.tables)
    ensures r.outcome.Failed? ==> r.tables == t
    ensures r.outcome.Done? <==> ProjectFromForm(form).Success?
                                 && ProjectFromForm(form).value.divisionId in t.divisions
    ensures r.outcome.Done? ==>
              && r.outcome.revalidated == ProjectsPath
              && Inserted(t.projects, r.tables.projects, newId, ProjectFromForm(form).value)
              && r.tables == t.(projects := r.tables.projects)
  {
    match ProjectFromForm(form)
    case Failure(e) => Step(t, Failed(e))
    case Success(p) =>
      if p.divisionId !in t.divisions then Step(t, Failed(UnknownDivision(p.divisionId)))
      else Step(t.(projects := t.projects[newId := p]), Done(ProjectsPath))
  }

  function UpdateProject(t: Tables, form: Entries): (r: Step)
    ensures Consistent(t) ==> Consistent(r.tables)
    ensures r.outcome.Failed? ==> r.tables == t
    ensures r.outcome.Done? <==> && Lookup(form, "id").Some? && Lookup(form, "id").value in t.projects
                                 && ProjectFromForm(form).Success?
                                 && ProjectFromForm(form).value.divisionId in t.divisions
    ensures r.outcome.Done? ==>
              && r.outcome.revalidated == ProjectsPath
              && Replaced(t.projects, r.tables.projects, Lookup(form, "id").value, ProjectFromForm(form).value)
              && r.tables == t.(projects := r.tables.projects)
  {
    match Required(form, "id")
    case Failure(e) => Step(t, Failed(e))
    case Success(id) =>
      match ProjectFromForm(form)
      case Failure(e) => Step(t, Failed(e))
      case Success(p) =>
        if id !in t.projects then Step(t, Failed(NotFound(id)))
        else if p.divisionId !in t.divisions then Step(t, Failed(UnknownDivision(p.divisionId)))
        else Step(t.(projects := t.projects[id := p]), Done(ProjectsPath))
  }

  function DeleteProject(t: Tables, id: Id): (r: Step)
    ensures Consistent(t) ==> Consistent(r.tables)
    ensures r.outcome.Failed? <==> id !in t.projects
    ensures r.outcome.Failed? ==> r.tables == t && r.outcome.error == NotFound(id)
    ensures r.outcome.Done? ==>
              && r.outcome.revalidated == ProjectsPath
              && Removed(t.projects, r.tables.projects, id)
              && r.tables == t.(projects := r.tables.projects)
  {
    if id !in t.projects then Step(t, Failed(NotFound(id)))
    else Step(t.(projects := t.projects - {id}), Done(ProjectsPath))
  }

  // ---------------------------------------------------------------------
  // Members

  function CreateMember(t: Tables, form: Entries, newId: Id): (r: Step)
    requires newId !in t.members
    ensures Consistent(t) ==> Consistent(r.tables)
    ensures r.outcome.Failed? ==> r.tables == t
    ensures r.outcome.Done? <==> MemberFromForm(form).Success?
                                 && MemberFromForm(form).value.divisionId in t.divisions
    ensures r.outcome.Done? ==>
              && r.outcome.revalidated == MembersPath
              && Inserted(t.members, r.tables.members, newId, MemberFromForm(form).value)
              && r.tables == t.(members := r.tables.members)
  {
    match MemberFromForm(form)
    case Failure(e) => Step(t, Failed(e))
    case Success(m) =>
      if m.divisionId !in t.divisions then Step(t, Failed(UnknownDivision(m.divisionId)))
      else Step(t.(members := t.members[newId := m]), Done(MembersPath))
  }

  function UpdateMember(t: Tables, form: Entries): (r: Step)
    ensures Consistent(t) ==> Consistent(r.tables)
    ensures r.outcome.Failed? ==> r.tables == t
    ensures r.outcome.Done? <==> && Lookup(form, "id").Some? && Lookup(form, "id").value in t.members
                                 && MemberFromForm(form).Success?
                                 && MemberFromForm(form).value.divisionId in t.divisions
    ensures r.outcome.Done? ==>
              && r.outcome.revalidated == MembersPath
              && Replaced(t.members, r.tables.members, Lookup(form, "id").value, MemberFromForm(form).value)
              && r.tables == t.(members := r.tables.members)
  {
    match Required(form, "id")
    case Failure(e) => Step(t, Failed(e))
    case Success(id) =>
      match MemberFromForm(form)
      case Failure(e) => Step(t, Failed(e))
      case Success(m) =>
        if id !in t.members then Step(t, Failed(NotFound(id)))
        else if m.divisionId !in t.divisions then Step(t, Failed(UnknownDivision(m.divisionId)))
        else Step(t.(members := t.members[id := m]), Done(MembersPath))
  }

  function DeleteMember(t: Tables, id: Id): (r: Step)
    ensures Consistent(t) ==> Consistent(r.tables)
    ensures r.outcome.Failed? <==> id !in t.members
    ensures r.outcome.Failed? ==> r.tables == t && r.outcome.error == NotFound(id)
    ensures r.outcome.Done? ==>
              && r.outcome.revalidated == MembersPath
              && Removed(t.members, r.tables.members, id)
              && r.tables == t.(members := r.tables.members)
  {
    if id !in t.members then Step(t, Failed(NotFound(id)))
    else Step(t.(members := t.members - {id}), Done(MembersPath))
  }

  // ---------------------------------------------------------------------
  // Achievements

  function CreateAchievement(t: Tables, form: Entries, newId: Id): (r: Step)
    requires newId !in t.achievements
    ensures Consistent(t) ==> Consistent(r.tables)
    ensures r.outcome.Failed? ==> r.tables == t
    ensures r.outcome.Done? <==> AchievementFromForm(form).Success?
                                 && AchievementFromForm(form).value.divisionId in t.divisions
    ensures r.outcome.Done? ==>
              && r.outcome.revalidated == AchievementsPath
              && Inserted(t.achievements, r.tables.achievements, newId, AchievementFromForm(form).value)
              && r.tables == t.(achievements := r.tables.achievements)
  {
    match AchievementFromForm(form)
    case Failure(e) => Step(t, Failed(e))
    case Success(a) =>
      if a.divisionId !in t.divisions then Step(t, Failed(UnknownDivision(a.divisionId)))
      else Step(t.(achievements := t.achievements[newId := a]), Done(AchievementsPath))
  }

  function UpdateAchievement(t: Tables, form: Entries): (r: Step)
    ensures Consistent(t) ==> Consistent(r.tables)
    ensures r.outcome.Failed? ==> r.tables == t
    ensures r.outcome.Done? <==> && Lookup(form, "id").Some? && Lookup(form, "id").value in t.achievements
                                 && AchievementFromForm(form).Success?
                                 && AchievementFromForm(form).value.divisionId in t.divisions
    ensures r.outcome.Done? ==>
              && r.outcome.revalidated == AchievementsPath
              && Replaced(t.achievements, r.tables.achievements, Lookup(form, "id").value,
                          AchievementFromForm(form).value)
              && r.tables == t.(achievements := r.tables.achievements)
  {
    match Required(form, "id")
    case Failure(e) => Step(t, Failed(e))
    case Success(id) =>
      match AchievementFromForm(form)
      case Failure(e) => Step(t, Failed(e))
      case Success(a) =>
        if id !in t.achievements then Step(t, Failed(NotFound(id)))
        else if a.divisionId !in t.divisions then Step(t, Failed(UnknownDivision(a.divisionId)))
        else Step(t.(achievements := t.achievements[id := a]), Done(AchievementsPath))
  }

  function DeleteAchievement(t: Tables, id: Id): (r: Step)
    ensures Consistent(t) ==> Consistent(r.tables)
    ensures r.outcome.Failed? <==> id !in t.achievements
    ensures r.outcome.Failed? ==> r.tables == t && r.outcome.error == NotFound(id)
    ensures r.outcome.Done? ==>
              && r.outcome.revalidated == AchievementsPath
              && Removed(t.achievements, r.tables.achievements, id)
              && r.tables == t.(achievements := r.tables.achievements)
  {
    if id !in t.achievements then Step(t, Failed(NotFound(id)))
    else Step(t.(achievements := t.achievements - {id}), Done(AchievementsPath))
  }

  // ---------------------------------------------------------------------
  // Tech stack (create and delete only)

  function CreateTechStack(t: Tables, form: Entries, newId: Id): (r: Step)
    requires newId !in t.techStacks
    ensures Consistent(t) ==> Consistent(r.tables)
    ensures r.outcome.Failed? ==> r.tables == t
    ensures r.outcome.Done? <==> TechStackFromForm(form).Success?
                                 && TechStackFromForm(form).value.divisionId in t.divisions
    ensures r.outcome.Done? ==>
              && r.outcome.revalidated == TechStackPath
              && Inserted(t.techStacks, r.tables.techStacks, newId, TechStackFromForm(form).value)
              && r.tables == t.(techStacks := r.tables.techStacks)
  {
    match TechStackFromForm(form)
    case Failure(e) => Step(t, Failed(e))
    case Success(s) =>
      if s.divisionId !in t.divisions then Step(t, Failed(UnknownDivision(s.divisionId)))
      else Step(t.(techStacks := t.techStacks[newId := s]), Done(TechStackPath))
  }

  function DeleteTechStack(t: Tables, id: Id): (r: Step)
    ensures Consistent(t) ==> Consistent(r.tables)
    ensures r.outcome.Failed? <==> id !in t.techStacks
    ensures r.outcome.Failed? ==> r.tables == t && r.outcome.error == NotFound(id)
    ensures r.outcome.Done? ==>
              && r.outcome.revalidated == TechStackPath
              && Removed(t.techStacks, r.tables.techStacks, id)
              && r.tables == t.(techStacks := r.tables.techStacks)
  {
    if id !in t.techStacks then Step(t, Failed(NotFound(id)))
    else Step(t.(techStacks := t.techStacks - {id}), Done(TechStackPath))
  }

  // ---------------------------------------------------------------------
  // How the actions relate to each other

  /** Deleting a row right after creating it restores the tables. */
  lemma CreateThenDeleteDivision(t: Tables, form: Entries, newId: Id)
    requires Consistent(t) && newId !in t.divisions
    requires CreateDivision(t, form, newId).outcome.Done?
    ensures DeleteDivision(CreateDivision(t, form, newId).tables, newId) == Step(t, Done(DivisionsPath))
  {
    var after := CreateDivision(t, form, newId).tables;
    assert !Owns(after, newId);
    assert after.divisions - {newId} == t.divisions;
  }

  lemma CreateThenDeleteProject(t: Tables, form: Entries, newId: Id)
    requires newId !in t.projects
    requires CreateProject(t, form, newId).outcome.Done?
    ensures DeleteProject(CreateProject(t, form, newId).tables, newId) == Step(t, Done(ProjectsPath))
  {
    assert CreateProject(t, form, newId).tables.projects - {newId} == t.projects;
  }

  lemma CreateThenDeleteMember(t: Tables, form: Entries, newId: Id)
    requires newId !in t.members
    requires CreateMember(t, form, newId).outcome.Done?
    ensures DeleteMember(CreateMember(t, form, newId).tables, newId) == Step(t, Done(MembersPath))
  {
    assert CreateMember(t, form, newId).tables.members - {newId} == t.members;
  }

  lemma CreateThenDeleteAchievement(t: Tables, form: Entries, newId: Id)
    requires newId !in t.achievements
    requires CreateAchievement(t, form, newId).outcome.Done?
    ensures DeleteAchievement(CreateAchievement(t, form, newId).tables, newId) == Step(t, Done(AchievementsPath))
  {
    assert CreateAchievement(t, form, newId).tables.achievements - {newId} == t.achievements;
  }

  lemma CreateThenDeleteTechStack(t: Tables, form: Entries, newId: Id)
    requires newId !in t.techStacks
    requires CreateTechStack(t, form, newId).outcome.Done?
    ensures DeleteTechStack(CreateTechStack(t, form, newId).tables, newId) == Step(t, Done(TechStackPath))
  {
    assert CreateTechStack(t, form, newId).tables.techStacks - {newId} == t.techStacks;
  }

  /** Submitting the same edit form twice has the effect of submitting it once. */
  lemma UpdateDivisionIdempotent(t: Tables, form: Entries)
    ensures UpdateDivision(UpdateDivision(t, form).tables, form) == UpdateDivision(t, form)
  {
    var once := UpdateDivision(t, form);
    if once.outcome.Done? {
      var id := Lookup(form, "id").value;
      var f := DivisionFieldsFromForm(form).value;
      assert !SlugUsedByOther(once.tables.divisions, f.slug, id) by {
        forall k | k in once.tables.divisions && k != id
          ensures once.tables.divisions[k].slug != f.slug
        {
          assert once.tables.divisions[k] == t.divisions[k];
        }
      }
      assert RewriteDivision(once.tables.divisions[id], f) == once.tables.divisions[id];
    }
  }

  lemma UpdateProjectIdempotent(t: Tables, form: Entries)
    ensures UpdateProject(UpdateProject(t, form).tables, form) == UpdateProject(t, form)
  {
  }

  lemma UpdateMemberIdempotent(t: Tables, form: Entries)
    ensures UpdateMember(UpdateMember(t, form).tables, form) == UpdateMember(t, form)
  {
  }

  lemma UpdateAchievementIdempotent(t: Tables, form: Entries)
    ensures UpdateAchievement(UpdateAchievement(t, form).tables, form) == UpdateAchievement(t, form)
  {
  }
}
