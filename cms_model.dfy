/**
 * The content store of the club site: five tables keyed by id, each child
 * row owned by one Division through `divisionId`.
 */
module CmsModel {
  import opened Wrappers

  /** A row id; assigned by the database on create. */
  type Id = string

  /** `colorClass` is `None` when the creating action did not set it. */
  datatype Division = Division(title: string, slug: string, description: string,
                               iconName: string, colorClass: Option<string>)

  datatype Project = Project(title: string, description: string, imageUrl: string,
                             tags: seq<string>, demoUrl: Option<string>,
                             githubUrl: Option<string>, divisionId: Id)

  datatype Member = Member(name: string, role: string, imageUrl: string,
                           github: Option<string>, linkedin: Option<string>, divisionId: Id)

  datatype Achievement = Achievement(title: string, date: string, description: string,
                                     issuer: string, winner: string, imageUrl: string,
                                     divisionId: Id)

  datatype TechStack = TechStack(name: string, imageUrl: string, websiteUrl: Option<string>,
                                 divisionId: Id)

  datatype Tables = Tables(divisions: map<Id, Division>, projects: map<Id, Project>,
                           members: map<Id, Member>, achievements: map<Id, Achievement>,
                           techStacks: map<Id, TechStack>)

  /** Why a server action throws instead of completing. */
  datatype CmsError =
    | MissingField(field: string)     // a required form field is absent
    | NotFound(id: Id)                // update/delete of an unknown id
    | DuplicateSlug(slug: string)     // the unique constraint on Division.slug
    | UnknownDivision(divisionId: Id) // the foreign key from a child to Division
    | HasDependents(id: Id)           // delete of a Division that still owns rows

  /** Some division other than `self` already uses `slug`. */
  predicate SlugUsedByOther(divisions: map<Id, Division>, slug: string, self: Id) {
    exists k :: k in divisions && k != self && divisions[k].slug == slug
  }

  predicate HasSlug(divisions: map<Id, Division>, slug: string) {
    exists k :: k in divisions && divisions[k].slug == slug
  }

  /** Some row of a child table still points at division `id`. */
  predicate Owns(t: Tables, id: Id) {
    (exists k :: k in t.projects && t.projects[k].divisionId == id)
    || (exists k :: k in t.members && t.members[k].divisionId == id)
    || (exists k :: k in t.achievements && t.achievements[k].divisionId == id)
    || (exists k :: k in t.techStacks && t.techStacks[k].divisionId == id)
  }

  ghost predicate SlugsUnique(divisions: map<Id, Division>) {
    forall a, b :: a in divisions && b in divisions && a != b ==> divisions[a].slug != divisions[b].slug
  }

  /** Every child row points at an existing division. */
  ghost predicate Owned(t: Tables) {
    (forall k :: k in t.projects ==> t.projects[k].divisionId in t.divisions)
    && (forall k :: k in t.members ==> t.members[k].divisionId in t.divisions)
    && (forall k :: k in t.achievements ==> t.achievements[k].divisionId in t.divisions)
    && (forall k :: k in t.techStacks ==> t.techStacks[k].divisionId in t.divisions)
  }

  /** The constraints the database enforces on every state. */
  ghost predicate Consistent(t: Tables) {
    SlugsUnique(t.divisions) && Owned(t)
  }

  /** Adding divisions keeps every child row owned. */
  lemma OwnedGrow(t: Tables, divisions: map<Id, Division>)
    requires Owned(t)
    requires forall k :: k in t.divisions ==> k in divisions
    ensures Owned(t.(divisions := divisions))
  {
  }

  /** `after` is `before` with one new row `id`. */
  ghost predicate Inserted<V>(before: map<Id, V>, after: map<Id, V>, id: Id, v: V) {
    id !in before && after == before[id := v]
  }

  /** `after` is `before` with row `id` rewritten. */
  ghost predicate Replaced<V>(before: map<Id, V>, after: map<Id, V>, id: Id, v: V) {
    id in before && after == before[id := v]
  }

  /** `after` is `before` without row `id`. */
  ghost predicate Removed<V>(before: map<Id, V>, after: map<Id, V>, id: Id) {
    id in before && after == before - {id}
  }

  /** Inserting adds exactly one row and keeps every other row. */
  lemma InsertedFacts<V>(before: map<Id, V>, after: map<Id, V>, id: Id, v: V)
    requires Inserted(before, after, id, v)
    ensures after.Keys == before.Keys + {id} && |after| == |before| + 1
    ensures forall k :: k in before ==> k in after && after[k] == before[k]
  {
    assert after.Keys == before.Keys + {id};
  }

  /** Rewriting keeps the set of ids and every other row. */
  lemma ReplacedFacts<V>(before: map<Id, V>, after: map<Id, V>, id: Id, v: V)
    requires Replaced(before, after, id, v)
    ensures after.Keys == before.Keys && |after| == |before| && after[id] == v
    ensures forall k :: k in before && k != id ==> after[k] == before[k]
  {
    assert after.Keys == before.Keys;
  }

  /** Removing drops exactly one row and keeps every other row. */
  lemma RemovedFacts<V>(before: map<Id, V>, after: map<Id, V>, id: Id)
    requires Removed(before, after, id)
    ensures after.Keys == before.Keys - {id} && |after| == |before| - 1
    ensures forall k :: k in after ==> k in before && after[k] == before[k]
  {
    assert after.Keys == before.Keys - {id};
  }
}
