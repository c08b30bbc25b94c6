/** The three database enums of the generated schema types
    (`request_status`, `item_condition`, `item_category`), their wire names,
    and the `Constants` lists that enumerate them. */
module Enums {
  import opened Wrappers
  import opened Seqs

  // ---- request_status -----------------------------------------------------

  datatype RequestStatus =
    | Pending | Negotiating | Accepted | Rejected
    | Cancelled | Active | Completed | Overdue

  /** The wire name of a status, as stored in the database. */
  function StatusName(s: RequestStatus): (t: string)
    ensures t in RequestStatusValues
  {
    match s
    case Pending => "pending"
    case Negotiating => "negotiating"
    case Accepted => "accepted"
    case Rejected => "rejected"
    case Cancelled => "cancelled"
    case Active => "active"
    case Completed => "completed"
    case Overdue => "overdue"
  }

  /** Every status, in declaration order. */
  const AllStatuses: seq<RequestStatus> :=
    [Pending, Negotiating, Accepted, Rejected, Cancelled, Active, Completed, Overdue]

  /** `Constants.public.Enums.request_status`. */
  const RequestStatusValues: seq<string> :=
    ["pending", "negotiating", "accepted", "rejected", "cancelled", "active", "completed", "overdue"]

  /** Reads a wire name back; anything that is not one of the eight names is
      rejected. */
  function ParseStatus(t: string): (r: Option<RequestStatus>)
    ensures r.Some? ==> StatusName(r.value) == t
    ensures r.None? <==> t !in RequestStatusValues
  {
    if t == "pending" then Some(Pending)
    else if t == "negotiating" then Some(Negotiating)
    else if t == "accepted" then Some(Accepted)
    else if t == "rejected" then Some(Rejected)
    else if t == "cancelled" then Some(Cancelled)
    else if t == "active" then Some(Active)
    else if t == "completed" then Some(Completed)
    else if t == "overdue" then Some(Overdue)
    else None
  }

  /** The status type has exactly eight values, and the constant list names
      them in the same order. */
  lemma RequestStatusEnumeration()
    ensures |AllStatuses| == 8 && NoDup(AllStatuses)
    ensures forall s: RequestStatus :: s in AllStatuses
    ensures |RequestStatusValues| == |AllStatuses|
    ensures forall i :: 0 <= i < |AllStatuses| ==> RequestStatusValues[i] == StatusName(AllStatuses[i])
  {
    forall s: RequestStatus ensures s in AllStatuses {
      match s
      case Pending => assert AllStatuses[0] == s;
      case Negotiating => assert AllStatuses[1] == s;
      case Accepted => assert AllStatuses[2] == s;
      case Rejected => assert AllStatuses[3] == s;
      case Cancelled => assert AllStatuses[4] == s;
      case Active => assert AllStatuses[5] == s;
      case Completed => assert AllStatuses[6] == s;
      case Overdue => assert AllStatuses[7] == s;
    }
  }

  /** The constant list has no repeated name. */
  lemma RequestStatusValuesDistinct()
    ensures NoDup(RequestStatusValues)
  {
    RequestStatusEnumeration();
    forall i, j | 0 <= i < j < |RequestStatusValues|
      ensures RequestStatusValues[i] != RequestStatusValues[j]
    {
      StatusNameRoundTrip(AllStatuses[i]);
      StatusNameRoundTrip(AllStatuses[j]);
    }
  }

  /** Names and parsing are inverse to each other. */
  lemma StatusNameRoundTrip(s: RequestStatus)
    ensures ParseStatus(StatusName(s)) == Some(s)
  {
  }

  // ---- item_condition -----------------------------------------------------

  datatype ItemCondition = Excellent | Good | Fair | Poor

  function ConditionName(c: ItemCondition): (t: string)
    ensures t in ItemConditionValues
  {
    match c
    case Excellent => "excellent"
    case Good => "good"
    case Fair => "fair"
    case Poor => "poor"
  }

  const AllConditions: seq<ItemCondition> := [Excellent, Good, Fair, Poor]

  /** `Constants.public.Enums.item_condition`. */
  const ItemConditionValues: seq<string> := ["excellent", "good", "fair", "poor"]

  lemma ItemConditionEnumeration()
    ensures |AllConditions| == 4 && NoDup(AllConditions)
    ensures forall c: ItemCondition :: c in AllConditions
    ensures |ItemConditionValues| == |AllConditions|
    ensures forall i :: 0 <= i < |AllConditions| ==> ItemConditionValues[i] == ConditionName(AllConditions[i])
    ensures NoDup(ItemConditionValues)
  {
    forall c: ItemCondition ensures c in AllConditions {
      match c
      case Excellent => assert AllConditions[0] == c;
      case Good => assert AllConditions[1] == c;
      case Fair => assert AllConditions[2] == c;
      case Poor => assert AllConditions[3] == c;
    }
  }

  // ---- item_category ------------------------------------------------------

  datatype ItemCategory =
    | Books | Electronics | Notes | Bikes | SportsEquipment
    | Tools | Clothing | Furniture | OtherCategory | Services

  function CategoryName(c: ItemCategory): (t: string)
    ensures t in ItemCategoryValues
  {
    match c
    case Books => "books"
    case Electronics => "electronics"
    case Notes => "notes"
    case Bikes => "bikes"
    case SportsEquipment => "sports_equipment"
    case Tools => "tools"
    case Clothing => "clothing"
    case Furniture => "furniture"
    case OtherCategory => "other"
    case Services => "services"
  }

  const AllCategories: seq<ItemCategory> :=
    [Books, Electronics, Notes, Bikes, SportsEquipment, Tools, Clothing, Furniture, OtherCategory, Services]

  /** `Constants.public.Enums.item_category`. */
  const ItemCategoryValues: seq<string> :=
    ["books", "electronics", "notes", "bikes", "sports_equipment", "tools", "clothing", "furniture", "other", "services"]

  lemma ItemCategoryEnumeration()
    ensures |AllCategories| == 10 && NoDup(AllCategories)
    ensures forall c: ItemCategory :: c in AllCategories
    ensures |ItemCategoryValues| == |AllCategories|
    ensures forall i :: 0 <= i < |AllCategories| ==> ItemCategoryValues[i] == CategoryName(AllCategories[i])
    ensures Services in AllCategories
  {
    forall c: ItemCategory ensures c in AllCategories {
      match c
      case Books => assert AllCategories[0] == c;
      case Electronics => assert AllCategories[1] == c;
      case Notes => assert AllCategories[2] == c;
      case Bikes => assert AllCategories[3] == c;
      case SportsEquipment => assert AllCategories[4] == c;
      case Tools => assert AllCategories[5] == c;
      case Clothing => assert AllCategories[6] == c;
      case Furniture => assert AllCategories[7] == c;
      case OtherCategory => assert AllCategories[8] == c;
      case Services => assert AllCategories[9] == c;
    }
  }

  /** Category names are pairwise distinct. */
  lemma CategoryNameInjective(a: ItemCategory, b: ItemCategory)
    ensures CategoryName(a) == CategoryName(b) ==> a == b
  {
  }

  /** The category constant list has no repeated name. */
  lemma ItemCategoryValuesDistinct()
    ensures NoDup(ItemCategoryValues)
  {
    ItemCategoryEnumeration();
    forall i, j | 0 <= i < j < |ItemCategoryValues|
      ensures ItemCategoryValues[i] != ItemCategoryValues[j]
    {
      CategoryNameInjective(AllCategories[i], AllCategories[j]);
    }
  }
}
