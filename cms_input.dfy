/**
 * How the content actions turn a submitted form into a row: required
 * fields read as they are, the comma-separated tag list split and
 * trimmed, empty optional fields stored as `null`, and a default icon
 * name for divisions.
 */
module CmsInput {
  import opened Wrappers
  import opened Text
  import opened Web
  import opened CmsModel

  /** The icon name a division gets when the form leaves it empty. */
  const DefaultIconName := "FolderKanban"

  /** `tags.split(",").map((t) => t.trim())`: one tag per comma-separated
      piece, empty pieces kept, order kept. */
  function ParseTags(s: string): (tags: seq<string>)
    ensures |tags| == Occurrences(s, ',') + 1
    ensures forall i :: 0 <= i < |tags| ==> IsTrimmed(tags[i]) && ',' !in tags[i]
  {
    var pieces := Split(s, ',');
    var tags := seq(|pieces|, i requires 0 <= i < |pieces| => Trim(pieces[i]));
    assert forall i :: 0 <= i < |tags| ==> ',' !in tags[i] by {
      forall i | 0 <= i < |tags| ensures ',' !in tags[i] {
        TrimKeepsOut(pieces[i], ',');
      }
    }
    tags
  }

  /** `(v as string) || null`: the empty string and a missing field both
      become `null`; any other text is kept verbatim. */
  function EmptyToNull(v: Option<string>): (r: Option<string>)
    ensures r.None? <==> (v.None? || v.value == "")
    ensures r.Some? ==> r == v
  {
    if v.Some? && v.value != "" then v else None
  }

  /** `(v as string) || "FolderKanban"`: the stored icon name is never
      empty, and is the submitted one whenever that one is not. */
  function IconNameOrDefault(v: Option<string>): (r: string)
    ensures r != ""
    ensures v.Some? && v.value != "" ==> r == v.value
    ensures v.None? || v.value == "" ==> r == DefaultIconName
  {
    if v.Some? && v.value != "" then v.value else DefaultIconName
  }

  /** A required field: its first value, or the action throws. */
  function Required(f: Entries, name: string): (r: Result<string, CmsError>)
    ensures r.Success? <==> HasName(f, name)
    ensures r.Success? ==> Lookup(f, name) == Some(r.value)
    ensures r.Failure? ==> r.error == MissingField(name)
  {
    match Lookup(f, name)
    case Some(v) => Success(v)
    case None => Failure(MissingField(name))
  }

  /** The four columns a division create or update writes. */
  datatype DivisionFields = DivisionFields(title: string, slug: string, description: string,
                                           iconName: string)

  function DivisionFieldsFromForm(f: Entries): (r: Result<DivisionFields, CmsError>)
    ensures r.Success? <==> HasName(f, "title") && HasName(f, "slug") && HasName(f, "description")
    ensures r.Success? ==> && Lookup(f, "title") == Some(r.value.title)
                           && Lookup(f, "slug") == Some(r.value.slug)
                           && Lookup(f, "description") == Some(r.value.description)
                           && r.value.iconName == IconNameOrDefault(Lookup(f, "iconName"))
  {
    var title :- Required(f, "title");
    var slug :- Required(f, "slug");
    var description :- Required(f, "description");
    Success(DivisionFields(title, slug, description, IconNameOrDefault(Lookup(f, "iconName"))))
  }

  function ProjectFromForm(f: Entries): (r: Result<Project, CmsError>)
    ensures r.Success? <==> HasName(f, "title") && HasName(f, "description") && HasName(f, "imageUrl")
                            && HasName(f, "tags") && HasName(f, "divisionId")
    ensures r.Success? ==> && Lookup(f, "title") == Some(r.value.title)
                           && Lookup(f, "description") == Some(r.value.description)
                           && Lookup(f, "divisionId") == Some(r.value.divisionId)
                           && Lookup(f, "imageUrl") == Some(r.value.imageUrl)
                           && r.value.tags == ParseTags(Lookup(f, "tags").value)
                           && r.value.demoUrl == EmptyToNull(Lookup(f, "demoUrl"))
                           && r.value.githubUrl == EmptyToNull(Lookup(f, "githubUrl"))
  {
    var title :- Required(f, "title");
    var description :- Required(f, "description");
    var imageUrl :- Required(f, "imageUrl");
    var tags :- Required(f, "tags");
    var divisionId :- Required(f, "divisionId");
    Success(Project(title, description, imageUrl, ParseTags(tags),
                    EmptyToNull(Lookup(f, "demoUrl")), EmptyToNull(Lookup(f, "githubUrl")),
                    divisionId))
  }

  function MemberFromForm(f: Entries): (r: Result<Member, CmsError>)
    ensures r.Success? <==> HasName(f, "name") && HasName(f, "role") && HasName(f, "imageUrl")
                            && HasName(f, "divisionId")
    ensures r.Success? ==> && Lookup(f, "name") == Some(r.value.name)
                           && Lookup(f, "role") == Some(r.value.role)
                           && Lookup(f, "divisionId") == Some(r.value.divisionId)
                           && Lookup(f, "imageUrl") == Some(r.value.imageUrl)
                           && r.value.github == EmptyToNull(Lookup(f, "github"))
                           && r.value.linkedin == EmptyToNull(Lookup(f, "linkedin"))
  {
    var name :- Required(f, "name");
    var role :- Required(f, "role");
    var imageUrl :- Required(f, "imageUrl");
    var divisionId :- Required(f, "divisionId");
    Success(Member(name, role, imageUrl, EmptyToNull(Lookup(f, "github")),
                   EmptyToNull(Lookup(f, "linkedin")), divisionId))
  }

  function AchievementFromForm(f: Entries): (r: Result<Achievement, CmsError>)
    ensures r.Success? <==> HasName(f, "title") && HasName(f, "date") && HasName(f, "description")
                            && HasName(f, "issuer") && HasName(f, "winner")
                            && HasName(f, "imageUrl") && HasName(f, "divisionId")
    ensures r.Success? ==> && Lookup(f, "title") == Some(r.value.title)
                           && Lookup(f, "date") == Some(r.value.date)
                           && Lookup(f, "description") == Some(r.value.description)
                           && Lookup(f, "issuer") == Some(r.value.issuer)
                           && Lookup(f, "winner") == Some(r.value.winner)
                           && Lookup(f, "divisionId") == Some(r.value.divisionId)
                           && Lookup(f, "imageUrl") == Some(r.value.imageUrl)
  {
    var title :- Required(f, "title");
    var date :- Required(f, "date");
    var description :- Required(f, "description");
    var issuer :- Required(f, "issuer");
    var winner :- Required(f, "winner");
    var imageUrl :- Required(f, "imageUrl");
    var divisionId :- Required(f, "divisionId");
    Success(Achievement(title, date, description, issuer, winner, imageUrl, divisionId))
  }

  function TechStackFromForm(f: Entries): (r: Result<TechStack, CmsError>)
    ensures r.Success? <==> HasName(f, "name") && HasName(f, "imageUrl") && HasName(f, "divisionId")
    ensures r.Success? ==> && Lookup(f, "name") == Some(r.value.name)
                           && Lookup(f, "divisionId") == Some(r.value.divisionId)
                           && Lookup(f, "imageUrl") == Some(r.value.imageUrl)
                           && r.value.websiteUrl == EmptyToNull(Lookup(f, "websiteUrl"))
  {
    var name :- Required(f, "name");
    var imageUrl :- Required(f, "imageUrl");
    var divisionId :- Required(f, "divisionId");
    Success(TechStack(name, imageUrl, EmptyToNull(Lookup(f, "websiteUrl")), divisionId))
  }

  /** Tag `i` is piece `i` of the comma split with only its framing
      whitespace removed, and the pieces joined with commas give back the
      submitted text. */
  lemma ParseTagsPieces(s: string)
    ensures |ParseTags(s)| == |Split(s, ',')|
    ensures forall i :: 0 <= i < |ParseTags(s)| ==> Framed(Split(s, ',')[i], ParseTags(s)[i])
    ensures Join(Split(s, ','), [',']) == s
  {
    JoinSplit(s, ',');
  }

  /** Parsing gives back any non-empty list of trimmed, comma-free tags
      joined with bare commas. */
  lemma {:induction false} ParseTagsOfCommaJoin(tags: seq<string>)
    requires |tags| > 0
    requires forall i :: 0 <= i < |tags| ==> IsTrimmed(tags[i]) && ',' !in tags[i]
    ensures ParseTags(Join(tags, [','])) == tags
  {
    var s := Join(tags, [',']);
    SplitJoin(tags, ',');
    var r := ParseTags(s);
    assert |r| == |tags|;
    forall i | 0 <= i < |tags|
      ensures r[i] == tags[i]
    {
      TrimTrimmed(tags[i]);
      assert r[i] == Trim(Split(s, ',')[i]);
    }
  }

  /** Two adjacent commas give an empty tag, which is kept: "a,,b" is
      ["a", "", "b"]. */
  lemma ParseTagsKeepsEmpty(a: string, b: string)
    requires IsTrimmed(a) && IsTrimmed(b) && ',' !in a && ',' !in b
    ensures ParseTags(a + [','] + [','] + b) == [a, "", b]
  {
    var tags := [a, "", b];
    assert Join(tags, [',']) == a + [','] + [','] + b by {
      assert Join(tags[2..], [',']) == b;
      assert Join(tags[1..], [',']) == "" + [','] + b;
    }
    ParseTagsOfCommaJoin(tags);
  }
}
