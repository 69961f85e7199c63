/** The persisted cart: one blob under one storage key, read fail-soft and
    overwritten whole on every change. The parser and the storage backend are
    abstracted into the shape of the value the blob yields. */
module CartStorage {
  import opened Wrappers
  import opened CartStore

  /** What the stored blob turns into once parsed. */
  datatype Stored =
    | Absent                    // nothing stored under the key
    | Unparsable                // the text does not parse
    | StoredFalsy               // parses to a falsy value (null, 0, false, "")
    | StoredList(items: Cart)   // parses to a list of line items
    | StoredOther               // parses to some other truthy value, such as an object

  /** Why a cart operation cannot go ahead on what was read. */
  datatype ReadFault = NotAList

  /** Reads the cart. A missing, unparsable or falsy blob is the empty cart.
      A truthy value that is not a list is handed on as it is, and the list
      operations every caller applies next fail on it. */
  function Read(s: Stored): (r: Result<Cart, ReadFault>)
    ensures s.Absent? || s.Unparsable? || s.StoredFalsy? ==> r == Success([])
    ensures s.StoredList? ==> r == Success(s.items)
    ensures r.Failure? <==> s.StoredOther?
  {
    match s
    case StoredList(items) => Success(items)
    case StoredOther => Failure(NotAList)
    case _ => Success([])
  }

  /** Overwrites the stored blob with the whole cart; reading it back gives
      the same cart. */
  function Write(c: Cart): (r: Stored)
    ensures Read(r) == Success(c)
  {
    StoredList(c)
  }

  /** Read, add, write. */
  function StoreAdd(s: Stored, p: Product): (r: Result<Stored, ReadFault>)
    ensures r.Failure? <==> s.StoredOther?
    ensures r.Success? ==> Read(r.value) == Success(Add(Read(s).value, p))
    ensures s.Absent? || s.Unparsable? || s.StoredFalsy? ==>
      r == Success(StoredList([LineItem(p.id, p.name, p.price, p.image, 1)]))
  {
    match Read(s)
    case Success(c) => Success(Write(Add(c, p)))
    case Failure(e) => Failure(e)
  }

  /** Read, remove, write. */
  function StoreRemove(s: Stored, id: string): (r: Result<Stored, ReadFault>)
    ensures r.Failure? <==> s.StoredOther?
    ensures r.Success? ==> Read(r.value) == Success(Remove(Read(s).value, id))
    ensures r.Success? ==> !Contains(Read(r.value).value, id)
  {
    match Read(s)
    case Success(c) => Success(Write(Remove(c, id)))
    case Failure(e) => Failure(e)
  }

  /** Read, set the quantity, write. */
  function StoreSetQty(s: Stored, id: string, q: int): (r: Result<Stored, ReadFault>)
    ensures r.Failure? <==> s.StoredOther?
    ensures r.Success? ==> Read(r.value) == Success(SetQty(Read(s).value, id, q))
    ensures s.Absent? || s.Unparsable? || s.StoredFalsy? ==> r == Success(StoredList([]))
    ensures s.StoredList? ==>
      && r.Success? && r.value.StoredList?
      && |r.value.items| == |s.items|
      && (forall j :: 0 <= j < |s.items| ==> r.value.items[j].id == s.items[j].id)
      && (Contains(s.items, id) ==>
            var k := FindIndex(s.items, id).value;
            r.value.items[k] == s.items[k].(qty := ClampQty(q))
            && forall j :: 0 <= j < |s.items| && j != k ==> r.value.items[j] == s.items[j])
      && (!Contains(s.items, id) ==> r.value.items == s.items)
  {
    match Read(s)
    case Success(c) => Success(Write(SetQty(c, id, q)))
    case Failure(e) => Failure(e)
  }

  /** The badge figure for what is stored; a missing or corrupt blob shows 0. */
  function StoredBadge(s: Stored): (r: Result<nat, ReadFault>)
    ensures s.Absent? || s.Unparsable? || s.StoredFalsy? ==> r == Success(0)
    ensures s.StoredList? ==> r == Success(BadgeCount(s.items))
    ensures r.Failure? <==> s.StoredOther?
  {
    match Read(s)
    case Success(c) => Success(BadgeCount(c))
    case Failure(e) => Failure(e)
  }

  /** Every store operation on a stored valid cart stores a valid cart again. */
  lemma StoreKeepsValid(s: Stored, p: Product, id: string, q: int)
    requires Read(s).Success? && Valid(Read(s).value)
    ensures StoreAdd(s, p).Success? && Valid(Read(StoreAdd(s, p).value).value)
    ensures StoreRemove(s, id).Success? && Valid(Read(StoreRemove(s, id).value).value)
    ensures StoreSetQty(s, id, q).Success? && Valid(Read(StoreSetQty(s, id, q).value).value)
  {
    RemoveValid(Read(s).value, id);
  }
}
