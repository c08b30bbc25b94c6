/** The add-item form: the tag editor, the submit button, the category
    choices and the row the form inserts. */
module ItemForm {
  import opened Wrappers
  import opened Text
  import opened Seqs
  import opened Enums
  import opened Records

  /** The tag list and the text in the new-tag box. */
  datatype TagEditor = TagEditor(tags: seq<string>, entry: string)

  /** Every tag is non-empty and no tag occurs twice. */
  predicate ValidTags(tags: seq<string>) {
    NoDup(tags) && "" !in tags
  }

  /** `addTag`: appends the trimmed entry and clears the box when the trimmed
      entry is non-empty and not yet a tag; otherwise changes nothing. */
  function AddTag(e: TagEditor): (e': TagEditor)
    ensures Trim(e.entry) != [] && Trim(e.entry) !in e.tags ==>
      e'.tags == e.tags + [Trim(e.entry)] && e'.entry == ""
    ensures Trim(e.entry) == [] || Trim(e.entry) in e.tags ==> e' == e
    ensures ValidTags(e.tags) ==> ValidTags(e'.tags)
  {
    var tag := Trim(e.entry);
    if tag != [] && tag !in e.tags then TagEditor(e.tags + [tag], "") else e
  }

  /** `removeTag(t)`: keeps every other tag, in order. */
  function RemoveTag(tags: seq<string>, t: string): (r: seq<string>)
    ensures t !in r
    ensures forall x :: x in r <==> x in tags && x != t
    ensures SubseqOf(r, tags)
    ensures ValidTags(tags) ==> ValidTags(r)
    ensures ValidTags(tags) && t in tags ==> |r| == |tags| - 1
  {
    RemoveTagFacts(tags, t);
    Filter(tags, (x: string) => x != t)
  }

  lemma RemoveTagFacts(tags: seq<string>, t: string)
    ensures var r := Filter(tags, (x: string) => x != t);
      && (forall x :: x in r <==> x in tags && x != t)
      && SubseqOf(r, tags)
      && (NoDup(tags) ==> NoDup(r))
      && (NoDup(tags) && t in tags ==> |r| == |tags| - 1)
      && ("" !in tags ==> "" !in r)
  {
    var p := (x: string) => x != t;
    FilterKeepsEvery(tags, p);
    FilterSubseq(tags, p);
    if NoDup(tags) {
      SubseqNoDup(Filter(tags, p), tags);
      if t in tags {
        RemoveOneCount(tags, t);
      }
    }
  }

  /** Removing a tag that occurs once shortens the list by one. */
  lemma {:induction false} RemoveOneCount(tags: seq<string>, t: string)
    requires NoDup(tags) && t in tags
    ensures |Filter(tags, (x: string) => x != t)| == |tags| - 1
  {
    var p := (x: string) => x != t;
    if tags[0] == t {
      assert t !in tags[1..];
      FilterAll(tags[1..], p);
    } else {
      RemoveOneCount(tags[1..], t);
    }
  }

  /** Adding a tag and removing it again restores the list. */
  lemma AddThenRemove(e: TagEditor)
    requires ValidTags(e.tags) && Trim(e.entry) != [] && Trim(e.entry) !in e.tags
    ensures RemoveTag(AddTag(e).tags, Trim(e.entry)) == e.tags
  {
    var t := Trim(e.entry);
    var p := (x: string) => x != t;
    FilterAppend(e.tags, [t], p);
    FilterAll(e.tags, p);
  }

  /** The form's text fields and the two money fields (`None` when blank). */
  datatype ItemDraft = ItemDraft(
    title: string, description: string, category: string, condition: string,
    dailyRate: Option<Money>, deposit: Option<Money>, location: string, tags: seq<string>)

  /** The "List Item" button: title, category and condition filled in and no
      submission in flight. */
  predicate SubmitEnabled(f: ItemDraft, loading: bool) {
    f.title != "" && f.category != "" && f.condition != "" && !loading
  }

  /** The `items` insert. */
  datatype ItemInsert = ItemInsert(
    title: string, description: Option<string>, category: string, condition: string,
    dailyRate: Option<Money>, depositAmount: Money, location: Option<string>,
    tags: Option<seq<string>>, ownerId: Id, isAvailable: bool)

  /** `x || null` for a text field. */
  function NonEmpty(s: string): Option<string> {
    if s == "" then None else Some(s)
  }

  /** The insert `handleSubmit` sends for the owner's profile: empty text
      becomes null, a blank daily rate null, a blank deposit 0, an empty tag
      list null, and the item starts available. */
  function NewItem(f: ItemDraft, owner: Id): (row: ItemInsert)
    ensures row.isAvailable
    ensures row.dailyRate == f.dailyRate
    ensures f.deposit.None? ==> row.depositAmount == 0
    ensures f.deposit.Some? ==> row.depositAmount == f.deposit.value
    ensures row.tags.None? <==> f.tags == []
    ensures row.tags.Some? ==> row.tags.value == f.tags
    ensures row.description.None? <==> f.description == ""
    ensures row.description.Some? ==> row.description.value == f.description
    ensures row.location.None? <==> f.location == ""
    ensures row.location.Some? ==> row.location.value == f.location
    ensures row.ownerId == owner && row.title == f.title
    ensures row.category == f.category && row.condition == f.condition
  {
    ItemInsert(f.title, NonEmpty(f.description), f.category, f.condition,
               f.dailyRate, f.deposit.GetOr(0), NonEmpty(f.location),
               if |f.tags| > 0 then Some(f.tags) else None, owner, true)
  }

  datatype ItemError = NoProfile | ItemInsertFailed

  /** A listing inserted through an enabled button has its title, category
      and condition filled in, and an enabled button for a signed-in user
      always reaches the profile lookup. */
  lemma EnabledSubmitFilled(signedIn: bool, f: ItemDraft, profile: Option<Id>, inserted: bool)
    requires SubmitEnabled(f, false) && signedIn
    ensures SubmitItem(signedIn, f, profile, inserted).Some?
    ensures var out := SubmitItem(signedIn, f, profile, inserted);
      out.value.Ok? ==> out.value.value.title != "" && out.value.value.category != "" && out.value.value.condition != ""
    ensures profile.Some? && inserted ==> SubmitItem(signedIn, f, profile, inserted).value.Ok?
  {
  }

  /** `handleSubmit`: nothing without a signed-in user; an error when the
      profile is missing or the insert fails. */
  function SubmitItem(signedIn: bool, f: ItemDraft, profile: Option<Id>, inserted: bool): (out: Option<Result<ItemInsert, ItemError>>)
    ensures out.None? <==> !signedIn
    ensures out.Some? && profile.None? ==> out.value == Err(NoProfile)
    ensures out.Some? && out.value.Ok? ==> inserted && profile.Some? && out.value.value.ownerId == profile.value
  {
    if !signedIn then None
    else if profile.None? then Some(Err(NoProfile))
    else if !inserted then Some(Err(ItemInsertFailed))
    else Some(Ok(NewItem(f, profile.value)))
  }

  /** The category choices of the form, in display order. */
  const CategoryChoices: seq<ItemCategory> :=
    [Books, Electronics, Notes, Bikes, SportsEquipment, Tools, Clothing, Furniture, OtherCategory]

  /** The form offers every category except services, each once. */
  lemma CategoryChoicesExcludeServices()
    ensures Services !in CategoryChoices
    ensures forall c: ItemCategory :: c != Services ==> c in CategoryChoices
    ensures NoDup(CategoryChoices)
  {
    forall c: ItemCategory | c != Services ensures c in CategoryChoices {
      match c
      case Books => assert CategoryChoices[0] == c;
      case Electronics => assert CategoryChoices[1] == c;
      case Notes => assert CategoryChoices[2] == c;
      case Bikes => assert CategoryChoices[3] == c;
      case SportsEquipment => assert CategoryChoices[4] == c;
      case Tools => assert CategoryChoices[5] == c;
      case Clothing => assert CategoryChoices[6] == c;
      case Furniture => assert CategoryChoices[7] == c;
      case OtherCategory => assert CategoryChoices[8] == c;
      case Services =>
    }
  }
}
