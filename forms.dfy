/**
 * The admin dialogs' submit handlers. A form holds the image URL the
 * uploader reported; on submit it refuses to go on without one, adds that
 * URL (and, when editing, the row id) to the browser's form data, calls
 * the create or update action, and then shows a success toast and closes
 * its dialog. A handler whose action throws shows neither.
 */
module AdminForms {
  import opened Wrappers
  import opened Text
  import opened Web
  import opened CmsModel
  import opened CmsInput
  import opened CmsSpec
  import opened Cms

  /** What the user sees after a submit, in order. `Rejected` is the
      handler's promise rejecting with the action's error. */
  datatype Effect =
    | ErrorToast(message: string)
    | SuccessToast(message: string)
    | DialogClosed
    | Rejected(error: CmsError)

  /** The four dialogs that carry an uploaded image. */
  datatype Kind = ProjectKind | MemberKind | AchievementKind | TechStackKind

  /** The form data after the handler's appends, the tables after the
      action, and what the user saw. */
  datatype Submission = Submission(entries: Entries, tables: Tables, effects: seq<Effect>)

  /** The toast shown when no image has been uploaded. */
  function GuardMessage(kind: Kind): string {
    if kind == TechStackKind then "Logo required" else "Image required"
  }

  /** The tech stack dialog always creates, even when given a row. */
  predicate Creates(kind: Kind, editing: Option<Id>) {
    editing.None? || kind == TechStackKind
  }

  function SuccessMessage(kind: Kind, editing: Option<Id>): string {
    match kind
    case ProjectKind => if editing.Some? then "Project updated" else "Project created"
    case MemberKind => if editing.Some? then "Member updated" else "Member added"
    case AchievementKind => if editing.Some? then "Achievement updated" else "Achievement added"
    case TechStackKind => "Tech added"
  }

  /** The id of the row a submit writes. */
  function Target(kind: Kind, editing: Option<Id>, newId: Id): Id {
    if Creates(kind, editing) then newId else editing.value
  }

  /** The image URL stored in row `id` of the kind's table, if any. */
  function StoredImage(kind: Kind, t: Tables, id: Id): Option<string> {
    match kind
    case ProjectKind => if id in t.projects then Some(t.projects[id].imageUrl) else None
    case MemberKind => if id in t.members then Some(t.members[id].imageUrl) else None
    case AchievementKind => if id in t.achievements then Some(t.achievements[id].imageUrl) else None
    case TechStackKind => if id in t.techStacks then Some(t.techStacks[id].imageUrl) else None
  }

  /** The id the database gives a created row is unused in its table. */
  predicate NewIdFree(kind: Kind, editing: Option<Id>, t: Tables, newId: Id) {
    Creates(kind, editing) ==>
      match kind
      case ProjectKind => newId !in t.projects
      case MemberKind => newId !in t.members
      case AchievementKind => newId !in t.achievements
      case TechStackKind => newId !in t.techStacks
  }

  /** `formData.append("imageUrl", imageUrl)`, then `formData.append("id",
      data.id)` when editing. */
  function SubmittedEntries(kind: Kind, editing: Option<Id>, imageUrl: string, entries: Entries): Entries {
    entries + [("imageUrl", imageUrl)] + (if Creates(kind, editing) then [] else [("id", editing.value)])
  }

  /** The server action the handler awaits: the update action when the
      dialog edits a row, the create action otherwise, and always the
      create action for the tech stack. */
  function Action(kind: Kind, editing: Option<Id>, t: Tables, entries: Entries, newId: Id): (r: Step)
    requires NewIdFree(kind, editing, t, newId)
    ensures kind == ProjectKind ==>
              r == if editing.Some? then UpdateProject(t, entries) else CreateProject(t, entries, newId)
    ensures kind == MemberKind ==>
              r == if editing.Some? then UpdateMember(t, entries) else CreateMember(t, entries, newId)
    ensures kind == AchievementKind ==>
              r == if editing.Some? then UpdateAchievement(t, entries) else CreateAchievement(t, entries, newId)
    ensures kind == TechStackKind ==> r == CreateTechStack(t, entries, newId)
    ensures Consistent(t) ==> Consistent(r.tables)
    ensures r.outcome.Failed? ==> r.tables == t
    ensures r.outcome.Done? && Creates(kind, editing) ==>
              StoredImage(kind, r.tables, newId) == Lookup(entries, "imageUrl")
    ensures r.outcome.Done? && !Creates(kind, editing) ==>
              Lookup(entries, "id").Some? && StoredImage(kind, r.tables, Lookup(entries, "id").value) == Lookup(entries, "imageUrl")
  {
    match kind
    case ProjectKind =>
      if editing.Some? then UpdateProject(t, entries) else CreateProject(t, entries, newId)
    case MemberKind =>
      if editing.Some? then UpdateMember(t, entries) else CreateMember(t, entries, newId)
    case AchievementKind =>
      if editing.Some? then UpdateAchievement(t, entries) else CreateAchievement(t, entries, newId)
    case TechStackKind =>
      CreateTechStack(t, entries, newId)
  }

  /** What follows the awaited action: the toast and the close callback
      when it completed, the rejection when it threw. */
  function AfterAction(outcome: Outcome, message: string, close: bool): (r: seq<Effect>)
    ensures SuccessToast(message) in r <==> outcome.Done?
    ensures DialogClosed in r <==> outcome.Done? && close
    ensures outcome.Done? ==> r[0] == SuccessToast(message)
    ensures outcome.Failed? ==> r == [Rejected(outcome.error)]
    ensures outcome.Done? ==> |r| == if close then 2 else 1
    ensures outcome.Done? && close ==> r[1] == DialogClosed
  {
    if outcome.Done? then [SuccessToast(message)] + (if close then [DialogClosed] else [])
    else [Rejected(outcome.error)]
  }

  /** `handleSubmit` of an image-carrying dialog. Without an uploaded
      image it only shows the guard toast; otherwise it submits, and the
      dialog closes exactly when the action completed. */
  function ImageSubmit(kind: Kind, editing: Option<Id>, imageUrl: string, t: Tables, entries: Entries,
                       newId: Id): (r: Submission)
    requires NewIdFree(kind, editing, t, newId)
    ensures ErrorToast(GuardMessage(kind)) in r.effects <==> imageUrl == ""
    ensures imageUrl == "" ==> r.entries == entries && r.tables == t
    ensures imageUrl == "" ==> r.effects == [ErrorToast(GuardMessage(kind))]
    ensures imageUrl != "" ==> r.entries == SubmittedEntries(kind, editing, imageUrl, entries)
    ensures Consistent(t) ==> Consistent(r.tables)
    ensures imageUrl != "" ==> r.tables == Action(kind, editing, t, r.entries, newId).tables
    ensures SuccessToast(SuccessMessage(kind, editing)) in r.effects <==>
              imageUrl != "" && Action(kind, editing, t, r.entries, newId).outcome.Done?
    ensures DialogClosed in r.effects <==>
              imageUrl != "" && Action(kind, editing, t, r.entries, newId).outcome.Done?
    ensures imageUrl != "" && Action(kind, editing, t, r.entries, newId).outcome.Failed? ==>
              r.effects == [Rejected(Action(kind, editing, t, r.entries, newId).outcome.error)]
    ensures !(DialogClosed in r.effects) ==> r.tables == t
    ensures imageUrl != "" ==>
              r.effects == AfterAction(Action(kind, editing, t, r.entries, newId).outcome, SuccessMessage(kind, editing), true)
  {
    if imageUrl == "" then Submission(entries, t, [ErrorToast(GuardMessage(kind))])
    else
      var submitted := SubmittedEntries(kind, editing, imageUrl, entries);
      var step := Action(kind, editing, t, submitted, newId);
      Submission(submitted, step.tables, AfterAction(step.outcome, SuccessMessage(kind, editing), true))
  }

  /** The form's own fields never include `imageUrl` or `id`, so the row
      written is the one being edited (or the new one) and it stores the
      URL the uploader reported. */
  lemma SubmitStoresUploadedImage(kind: Kind, editing: Option<Id>, imageUrl: string, t: Tables,
                                  entries: Entries, newId: Id)
    requires NewIdFree(kind, editing, t, newId)
    requires !HasName(entries, "imageUrl") && !HasName(entries, "id")
    requires DialogClosed in ImageSubmit(kind, editing, imageUrl, t, entries, newId).effects
    ensures StoredImage(kind, ImageSubmit(kind, editing, imageUrl, t, entries, newId).tables,
                        Target(kind, editing, newId)) == Some(imageUrl)
  {
    SubmittedLookups(kind, editing, imageUrl, entries);
  }

  /** What the action reads back from the appended form data. */
  lemma SubmittedLookups(kind: Kind, editing: Option<Id>, imageUrl: string, entries: Entries)
    requires !HasName(entries, "imageUrl") && !HasName(entries, "id")
    ensures Lookup(SubmittedEntries(kind, editing, imageUrl, entries), "imageUrl") == Some(imageUrl)
    ensures !Creates(kind, editing) ==> Lookup(SubmittedEntries(kind, editing, imageUrl, entries), "id") == Some(editing.value)
  {
    var withImage := entries + [("imageUrl", imageUrl)];
    LookupAppend(entries, "imageUrl", imageUrl, "imageUrl");
    LookupAppend(entries, "imageUrl", imageUrl, "id");
    if !Creates(kind, editing) {
      LookupAppend(withImage, "id", editing.value, "imageUrl");
      LookupAppend(withImage, "id", editing.value, "id");
    } else {
      assert SubmittedEntries(kind, editing, imageUrl, entries) == withImage;
    }
  }

  /** `data?.tags?.join(", ")`, the tags field's initial text; empty when
      there is no row. */
  function TagsDefault(tags: Option<seq<string>>): (r: string)
    ensures tags.None? || tags.value == [] ==> r == ""
    ensures tags.Some? && |tags.value| == 1 ==> r == tags.value[0]
    ensures tags.Some? && |tags.value| > 1 ==> tags.value[0] + ", " <= r
  {
    if tags.Some? then Join(tags.value, ", ") else ""
  }

  /** The pieces of `w + Join(parts, ", ")` split at commas: the first
      part behind `w`, each later one behind the blank of its delimiter. */
  lemma {:induction false} SplitCommaSpaceJoin(w: string, parts: seq<string>)
    requires |parts| > 0 && ',' !in w
    requires forall i :: 0 <= i < |parts| ==> ',' !in parts[i]
    ensures var pieces := Split(w + Join(parts, ", "), ',');
            |pieces| == |parts| && pieces[0] == w + parts[0]
            && forall i :: 1 <= i < |parts| ==> pieces[i] == " " + parts[i]
    decreases |parts|
  {
    if |parts| == 1 {
      SplitSingle(w + parts[0], ',');
    } else {
      var rest := parts[1..];
      assert w + Join(parts, ", ") == (w + parts[0]) + [','] + (" " + Join(rest, ", "));
      SplitAfterPiece(w + parts[0], " " + Join(rest, ", "), ',');
      SplitCommaSpaceJoin(" ", rest);
    }
  }

  /** Each comma-separated piece of `Join(tags, ", ")` trims to its tag. */
  lemma TrimmedPieces(tags: seq<string>)
    requires |tags| > 0
    requires forall i :: 0 <= i < |tags| ==> IsTrimmed(tags[i]) && ',' !in tags[i]
    ensures |Split(Join(tags, ", "), ',')| == |tags|
    ensures forall i :: 0 <= i < |tags| ==> Trim(Split(Join(tags, ", "), ',')[i]) == tags[i]
  {
    assert "" + Join(tags, ", ") == Join(tags, ", ");
    SplitCommaSpaceJoin("", tags);
    forall i | 0 <= i < |tags|
      ensures Trim(Split(Join(tags, ", "), ',')[i]) == tags[i]
    {
      PieceTrims(tags[i], i == 0);
    }
  }

  /** A tag, or a tag behind one blank, trims to the tag. */
  lemma PieceTrims(tag: string, first: bool)
    requires IsTrimmed(tag)
    ensures Trim(if first then "" + tag else " " + tag) == tag
  {
    if first {
      assert "" + tag == tag;
      TrimTrimmed(tag);
    } else {
      assert " " + tag == " " + tag + "";
      TrimFramed(" ", tag, "");
    }
  }

  /** Re-submitting the edit dialog with its tags field untouched stores
      the same tags, for a non-empty list of trimmed tags without commas. */
  lemma TagsRoundTrip(tags: seq<string>)
    requires |tags| > 0
    requires forall i :: 0 <= i < |tags| ==> IsTrimmed(tags[i]) && ',' !in tags[i]
    ensures ParseTags(TagsDefault(Some(tags))) == tags
  {
    var s := Join(tags, ", ");
    TrimmedPieces(tags);
    ParseTagsPieces(s);
  }

  /** Whatever was typed, the tags stored after one round through the
      edit dialog are stored again unchanged by the next. */
  lemma TagsStable(s: string)
    ensures ParseTags(TagsDefault(Some(ParseTags(s)))) == ParseTags(s)
  {
    TagsRoundTrip(ParseTags(s));
  }

  /** A row stored with no tags shows an empty field, which the next save
      stores as one empty tag. */
  lemma TagsEmptyBecomesOneEmptyTag()
    ensures TagsDefault(Some([])) == ""
    ensures ParseTags(TagsDefault(Some([]))) == [""]
  {
    assert Split("", ',') == [""];
    TrimTrimmed("");
  }

  /** `DivisionForm`'s `handleSubmit`: no image guard; the optional
      `onSuccess` callback closes the dialog. */
  function DivisionSubmit(editing: Option<Id>, closes: bool, t: Tables, entries: Entries, newId: Id)
    : (r: Submission)
    requires editing.None? ==> newId !in t.divisions
    ensures editing.Some? ==> r.entries == entries + [("id", editing.value)]
    ensures editing.None? ==> r.entries == entries
    ensures Consistent(t) ==> Consistent(r.tables)
    ensures var step := if editing.Some? then UpdateDivision(t, r.entries) else CreateDivision(t, r.entries, newId);
            && r.tables == step.tables
            && (SuccessToast(if editing.Some? then "Division updated" else "Division created") in r.effects
                <==> step.outcome.Done?)
            && (DialogClosed in r.effects <==> closes && step.outcome.Done?)
            && (step.outcome.Failed? ==> r.effects == [Rejected(step.outcome.error)])
            && r.effects == AfterAction(step.outcome, if editing.Some? then "Division updated" else "Division created", closes)
  {
    if editing.Some? then
      var submitted := entries + [("id", editing.value)];
      var step := UpdateDivision(t, submitted);
      Submission(submitted, step.tables, AfterAction(step.outcome, "Division updated", closes))
    else
      var step := CreateDivision(t, entries, newId);
      Submission(entries, step.tables, AfterAction(step.outcome, "Division created", closes))
  }

  /** The edit dialog rewrites the division it was opened on and no other. */
  lemma DivisionEditTargetsRow(id: Id, closes: bool, t: Tables, entries: Entries, newId: Id)
    requires !HasName(entries, "id")
    ensures var r := DivisionSubmit(Some(id), closes, t, entries, newId);
            Lookup(r.entries, "id") == Some(id)
            && (UpdateDivision(t, r.entries).outcome.Done? ==>
                  Replaced(t.divisions, r.tables.divisions, id,
                           RewriteDivision(t.divisions[id], DivisionFieldsFromForm(r.entries).value)))
  {
    LookupAppend(entries, "id", id, "id");
  }

  class DivisionForm {
    /** The id of `data` when the dialog edits an existing division. */
    const editing: Option<Id>
    /** Whether an `onSuccess` callback was passed. */
    const closes: bool

    constructor (editing: Option<Id>, closes: bool)
      ensures this.editing == editing && this.closes == closes
    {
      this.editing := editing;
      this.closes := closes;
    }

    method HandleSubmit(formData: FormData, store: Store, newId: Id) returns (effects: seq<Effect>)
      requires store.Valid()
      requires editing.None? ==> newId !in store.divisions
      modifies formData, store
      ensures store.Valid()
      ensures var r := DivisionSubmit(editing, closes, old(store.Snapshot()), old(formData.entries), newId);
              formData.entries == r.entries && store.Snapshot() == r.tables && effects == r.effects
    {
      var outcome: Outcome;
      var message: string;
      if editing.Some? {
        formData.Append("id", editing.value);
        outcome := store.UpdateDivision(formData);
        message := "Division updated";
      } else {
        outcome := store.CreateDivision(formData, newId);
        message := "Division created";
      }
      effects := AfterAction(outcome, message, closes);
    }
  }

  /** `ProjectForm`, `MemberForm`, `AchievementForm` and `TechStackForm`:
      the same handler, with the state `imageUrl` the uploader sets. */
  class ImageForm {
    const kind: Kind
    /** The id of `data` when the dialog was opened on an existing row. */
    const editing: Option<Id>
    var imageUrl: string

    /** `useState(data?.imageUrl || "")`. */
    constructor (kind: Kind, data: Option<(Id, string)>)
      ensures this.kind == kind
      ensures editing == if data.Some? then Some(data.value.0) else None
      ensures imageUrl == if data.Some? then data.value.1 else ""
    {
      this.kind := kind;
      editing := if data.Some? then Some(data.value.0) else None;
      imageUrl := if data.Some? then data.value.1 else "";
    }

    /** `setImageUrl`, called with the uploaded URL, or with "" when the
        picture is removed. */
    method SetImageUrl(url: string)
      modifies this
      ensures imageUrl == url
    {
      imageUrl := url;
    }

    method HandleSubmit(formData: FormData, store: Store, newId: Id) returns (effects: seq<Effect>)
      requires store.Valid()
      requires NewIdFree(kind, editing, store.Snapshot(), newId)
      modifies formData, store
      ensures store.Valid()
      ensures var r := ImageSubmit(kind, editing, imageUrl, old(store.Snapshot()), old(formData.entries), newId);
              formData.entries == r.entries && store.Snapshot() == r.tables && effects == r.effects
    {
      if imageUrl == "" {
        return [ErrorToast(GuardMessage(kind))];
      }
      formData.Append("imageUrl", imageUrl);
      var outcome: Outcome;
      match kind {
        case ProjectKind =>
          if editing.Some? {
            formData.Append("id", editing.value);
            outcome := store.UpdateProject(formData);
          } else {
            outcome := store.CreateProject(formData, newId);
          }
        case MemberKind =>
          if editing.Some? {
            formData.Append("id", editing.value);
            outcome := store.UpdateMember(formData);
          } else {
            outcome := store.CreateMember(formData, newId);
          }
        case AchievementKind =>
          if editing.Some? {
            formData.Append("id", editing.value);
            outcome := store.UpdateAchievement(formData);
          } else {
            outcome := store.CreateAchievement(formData, newId);
          }
        case TechStackKind =>
          outcome := store.CreateTechStack(formData, newId);
      }
      effects := AfterAction(outcome, SuccessMessage(kind, editing), true);
    }
  }
}
