/**
 * The database behind the content server actions, as an object whose
 * tables the actions update in place. Each action method does what the
 * matching step of `CmsSpec` says, so every property proved there holds
 * of the store.
 */
module Cms {
  import opened Wrappers
  import opened Web
  import opened CmsModel
  import opened CmsInput
  import opened CmsSpec

  class Store {
    var divisions: map<Id, Division>
    var projects: map<Id, Project>
    var members: map<Id, Member>
    var achievements: map<Id, Achievement>
    var techStacks: map<Id, TechStack>

    /** The current contents of all five tables. */
    function Snapshot(): Tables
      reads this
    {
      Tables(divisions, projects, members, achievements, techStacks)
    }

    /** The database constraints hold. */
    ghost predicate Valid()
      reads this
    {
      Consistent(Snapshot())
    }

    /** An empty database. */
    constructor ()
      ensures Valid()
      ensures Snapshot() == Tables(map[], map[], map[], map[], map[])
    {
      divisions, projects, members, achievements, techStacks := map[], map[], map[], map[], map[];
    }

    /** `initializeSystem`: upserts the seed divisions and revalidates
        the admin page; `ids` are the ids the database hands out to the
        rows it creates. */
    method InitializeSystem(ids: seq<Id>) returns (outcome: Outcome)
      requires Valid()
      requires FreshIds(divisions, ids, |Seeds|)
      modifies this
      ensures Valid()
      ensures Step(Snapshot(), outcome) == CmsSpec.InitializeSystem(old(Snapshot()), ids)
    {
      ghost var spec := CmsSpec.InitializeSystem(Snapshot(), ids);
      UpsertEach(Seeds, ids);
      assert Snapshot() == spec.tables;
      outcome := Done(AdminPath);
    }

    /** The `for` loop of `initializeSystem`: one upsert per division, in
        order, leaving the other tables alone. */
    method UpsertEach(seeds: seq<Division>, ids: seq<Id>)
      requires |ids| == |seeds|
      modifies this
      ensures divisions == UpsertAll(old(divisions), seeds, ids)
      ensures Snapshot() == old(Snapshot()).(divisions := divisions)
    {
      var start, upserted := divisions, divisions;
      var i := 0;
      while i < |seeds|
        invariant 0 <= i <= |seeds|
        invariant upserted == UpsertAll(start, seeds[..i], ids[..i])
      {
        assert seeds[..i + 1][..i] == seeds[..i] && ids[..i + 1][..i] == ids[..i];
        if !HasSlug(upserted, seeds[i].slug) {
          upserted := upserted[ids[i] := seeds[i]];
        }
        i := i + 1;
      }
      assert seeds[..i] == seeds && ids[..i] == ids;
      divisions := upserted;
    }

    method CreateDivision(form: FormData, newId: Id) returns (outcome: Outcome)
      requires Valid()
      requires newId !in divisions
      modifies this
      ensures Valid()
      ensures Step(Snapshot(), outcome) == CmsSpec.CreateDivision(old(Snapshot()), form.entries, newId)
    {
      var fields := DivisionFieldsFromForm(form.entries);
      if fields.Failure? {
        return Failed(fields.error);
      }
      var f := fields.value;
      if HasSlug(divisions, f.slug) {
        return Failed(DuplicateSlug(f.slug));
      }
      divisions := divisions[newId := NewDivision(f)];
      outcome := Done(DivisionsPath);
    }

    method UpdateDivision(form: FormData) returns (outcome: Outcome)
      requires Valid()
      modifies this
      ensures Valid()
      ensures Step(Snapshot(), outcome) == CmsSpec.UpdateDivision(old(Snapshot()), form.entries)
    {
      var id := form.Get("id");
      if id.None? {
        return Failed(MissingField("id"));
      }
      var fields := DivisionFieldsFromForm(form.entries);
      if fields.Failure? {
        return Failed(fields.error);
      }
      var f := fields.value;
      if id.value !in divisions {
        return Failed(NotFound(id.value));
      }
      if SlugUsedByOther(divisions, f.slug, id.value) {
        return Failed(DuplicateSlug(f.slug));
      }
      divisions := divisions[id.value := RewriteDivision(divisions[id.value], f)];
      outcome := Done(DivisionsPath);
    }

    method DeleteDivision(id: Id) returns (outcome: Outcome)
      requires Valid()
      modifies this
      ensures Valid()
      ensures Step(Snapshot(), outcome) == CmsSpec.DeleteDivision(old(Snapshot()), id)
    {
      if id !in divisions {
        return Failed(NotFound(id));
      }
      if Owns(Snapshot(), id) {
        return Failed(HasDependents(id));
      }
      divisions := divisions - {id};
      outcome := Done(DivisionsPath);
    }

    method CreateProject(form: FormData, newId: Id) returns (outcome: Outcome)
      requires Valid()
      requires newId !in projects
      modifies this
      ensures Valid()
      ensures Step(Snapshot(), outcome) == CmsSpec.CreateProject(old(Snapshot()), form.entries, newId)
    {
      var row := ProjectFromForm(form.entries);
      if row.Failure? {
        return Failed(row.error);
      }
      var p := row.value;
      if p.divisionId !in divisions {
        return Failed(UnknownDivision(p.divisionId));
      }
      projects := projects[newId := p];
      outcome := Done(ProjectsPath);
    }

    method UpdateProject(form: FormData) returns (outcome: Outcome)
      requires Valid()
      modifies this
      ensures Valid()
      ensures Step(Snapshot(), outcome) == CmsSpec.UpdateProject(old(Snapshot()), form.entries)
    {
      var id := form.Get("id");
      if id.None? {
        return Failed(MissingField("id"));
      }
      var row := ProjectFromForm(form.entries);
      if row.Failure? {
        return Failed(row.error);
      }
      var p := row.value;
      if id.value !in projects {
        return Failed(NotFound(id.value));
      }
      if p.divisionId !in divisions {
        return Failed(UnknownDivision(p.divisionId));
      }
      projects := projects[id.value := p];
      outcome := Done(ProjectsPath);
    }

    method DeleteProject(id: Id) returns (outcome: Outcome)
      requires Valid()
      modifies this
      ensures Valid()
      ensures Step(Snapshot(), outcome) == CmsSpec.DeleteProject(old(Snapshot()), id)
    {
      if id !in projects {
        return Failed(NotFound(id));
      }
      projects := projects - {id};
      outcome := Done(ProjectsPath);
    }

    method CreateMember(form: FormData, newId: Id) returns (outcome: Outcome)
      requires Valid()
      requires newId !in members
      modifies this
      ensures Valid()
      ensures Step(Snapshot(), outcome) == CmsSpec.CreateMember(old(Snapshot()), form.entries, newId)
    {
      var row := MemberFromForm(form.entries);
      if row.Failure? {
        return Failed(row.error);
      }
      var m := row.value;
      if m.divisionId !in divisions {
        return Failed(UnknownDivision(m.divisionId));
      }
      members := members[newId := m];
      outcome := Done(MembersPath);
    }

    method UpdateMember(form: FormData) returns (outcome: Outcome)
      requires Valid()
      modifies this
      ensures Valid()
      ensures Step(Snapshot(), outcome) == CmsSpec.UpdateMember(old(Snapshot()), form.entries)
    {
      var id := form.Get("id");
      if id.None? {
        return Failed(MissingField("id"));
      }
      var row := MemberFromForm(form.entries);
      if row.Failure? {
        return Failed(row.error);
      }
      var m := row.value;
      if id.value !in members {
        return Failed(NotFound(id.value));
      }
      if m.divisionId !in divisions {
        return Failed(UnknownDivision(m.divisionId));
      }
      members := members[id.value := m];
      outcome := Done(MembersPath);
    }

    method DeleteMember(id: Id) returns (outcome: Outcome)
      requires Valid()
      modifies this
      ensures Valid()
      ensures Step(Snapshot(), outcome) == CmsSpec.DeleteMember(old(Snapshot()), id)
    {
      if id !in members {
        return Failed(NotFound(id));
      }
      members := members - {id};
      outcome := Done(MembersPath);
    }

    method CreateAchievement(form: FormData, newId: Id) returns (outcome: Outcome)
      requires Valid()
      requires newId !in achievements
      modifies this
      ensures Valid()
      ensures Step(Snapshot(), outcome) == CmsSpec.CreateAchievement(old(Snapshot()), form.entries, newId)
    {
      var row := AchievementFromForm(form.entries);
      if row.Failure? {
        return Failed(row.error);
      }
      var a := row.value;
      if a.divisionId !in divisions {
        return Failed(UnknownDivision(a.divisionId));
      }
      achievements := achievements[newId := a];
      outcome := Done(AchievementsPath);
    }

    method UpdateAchievement(form: FormData) returns (outcome: Outcome)
      requires Valid()
      modifies this
      ensures Valid()
      ensures Step(Snapshot(), outcome) == CmsSpec.UpdateAchievement(old(Snapshot()), form.entries)
    {
      var id := form.Get("id");
      if id.None? {
        return Failed(MissingField("id"));
      }
      var row := AchievementFromForm(form.entries);
      if row.Failure? {
        return Failed(row.error);
      }
      var a := row.value;
      if id.value !in achievements {
        return Failed(NotFound(id.value));
      }
      if a.divisionId !in divisions {
        return Failed(UnknownDivision(a.divisionId));
      }
      achievements := achievements[id.value := a];
      outcome := Done(AchievementsPath);
    }

    method DeleteAchievement(id: Id) returns (outcome: Outcome)
      requires Valid()
      modifies this
      ensures Valid()
      ensures Step(Snapshot(), outcome) == CmsSpec.DeleteAchievement(old(Snapshot()), id)
    {
      if id !in achievements {
        return Failed(NotFound(id));
      }
      achievements := achievements - {id};
      outcome := Done(AchievementsPath);
    }

    method CreateTechStack(form: FormData, newId: Id) returns (outcome: Outcome)
      requires Valid()
      requires newId !in techStacks
      modifies this
      ensures Valid()
      ensures Step(Snapshot(), outcome) == CmsSpec.CreateTechStack(old(Snapshot()), form.entries, newId)
    {
      var row := TechStackFromForm(form.entries);
      if row.Failure? {
        return Failed(row.error);
      }
      var s := row.value;
      if s.divisionId !in divisions {
        return Failed(UnknownDivision(s.divisionId));
      }
      techStacks := techStacks[newId := s];
      outcome := Done(TechStackPath);
    }

    method DeleteTechStack(id: Id) returns (outcome: Outcome)
      requires Valid()
      modifies this
      ensures Valid()
      ensures Step(Snapshot(), outcome) == CmsSpec.DeleteTechStack(old(Snapshot()), id)
    {
      if id !in techStacks {
        return Failed(NotFound(id));
      }
      techStacks := techStacks - {id};
      outcome := Done(TechStackPath);
    }
  }
}
