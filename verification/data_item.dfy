/**
 * The generic record: an optional id and a map of attributes. The name of the
 * id field is fixed per item; it is taken out of the input when the item is
 * built and written back when the item is turned into an array.
 */
module DataItems {
  import opened PhpValues

  /** The constructor's envelope step: with `fill` set and an array under
      "attributes", the item is built from that array, into which `args["id"]`
      (the literal key "id", whatever the id field is called) is merged under
      the id field first. JSON text input is taken as already decoded. */
  function Unwrap(args: Attrs, uniqueIdField: string, fill: bool): (r: Attrs)
    ensures !fill ==> r == args
  {
    if fill && IsSet(args, StrKey("attributes")) && args[StrKey("attributes")].Arr? then
      var attributes := args[StrKey("attributes")].m;
      if IsSet(args, StrKey("id")) then attributes[StrKey(uniqueIdField) := args[StrKey("id")]]
      else attributes
    else args
  }

  /** The id a freshly built item takes from its (unwrapped) input. */
  function InitialId(args: Attrs, uniqueIdField: string): Value {
    if IsSet(args, StrKey(uniqueIdField)) then args[StrKey(uniqueIdField)] else Null
  }

  /** The attributes a freshly built item stores: the input without the id
      entry when that entry was taken as the id. */
  function InitialAttributes(args: Attrs, uniqueIdField: string): Attrs {
    if IsSet(args, StrKey(uniqueIdField)) then args - {StrKey(uniqueIdField)} else args
  }

  /** What `toArray` returns for an item with this id and these stored
      attributes: the id under the id field when there is one, and no id
      field at all when there is none. */
  function ArrayView(id: Value, attributes: Attrs, uniqueIdField: string): (r: Attrs)
    ensures StrKey(uniqueIdField) in r <==> id != Null
    ensures id != Null ==> r[StrKey(uniqueIdField)] == id
    ensures forall k :: k != StrKey(uniqueIdField) ==> (k in r <==> k in attributes)
    ensures forall k :: k in r && k != StrKey(uniqueIdField) ==> r[k] == attributes[k]
  {
    if id == Null then attributes - {StrKey(uniqueIdField)}
    else attributes[StrKey(uniqueIdField) := id]
  }

  /** Building from a map whose id entry is set takes that value as the id
      and removes the entry from the stored attributes. */
  lemma ConstructionTakesId(args: Attrs, uniqueIdField: string)
    requires IsSet(args, StrKey(uniqueIdField))
    ensures InitialId(args, uniqueIdField) == args[StrKey(uniqueIdField)] != Null
    ensures StrKey(uniqueIdField) !in InitialAttributes(args, uniqueIdField)
    ensures forall k :: k != StrKey(uniqueIdField) && k in args ==>
              k in InitialAttributes(args, uniqueIdField) && InitialAttributes(args, uniqueIdField)[k] == args[k]
  {
  }

  /** With `fill` and an "attributes" array, the item is built from that
      array, with `args["id"]` (when set) as its id. */
  lemma EnvelopeSuppliesId(args: Attrs, uniqueIdField: string)
    requires IsSet(args, StrKey("attributes")) && args[StrKey("attributes")].Arr?
    requires IsSet(args, StrKey("id"))
    ensures InitialId(Unwrap(args, uniqueIdField, true), uniqueIdField) == args[StrKey("id")]
    ensures InitialAttributes(Unwrap(args, uniqueIdField, true), uniqueIdField)
            == args[StrKey("attributes")].m - {StrKey(uniqueIdField)}
  {
  }

  /** Round trip: building an item from a map and turning it back into an
      array gives the map back, except that an id entry holding null is
      dropped. */
  lemma ToArrayRoundTrip(args: Attrs, uniqueIdField: string)
    ensures ArrayView(InitialId(args, uniqueIdField), InitialAttributes(args, uniqueIdField), uniqueIdField)
            == if IsSet(args, StrKey(uniqueIdField)) then args else args - {StrKey(uniqueIdField)}
  {
  }

  class DataItem {
    var id: Value
    var attributes: Attrs
    const uniqueIdField: string

    constructor (args: Attrs, uniqueIdField: string, fill: bool)
      ensures this.uniqueIdField == uniqueIdField
      ensures id == InitialId(Unwrap(args, uniqueIdField, fill), uniqueIdField)
      ensures attributes == InitialAttributes(Unwrap(args, uniqueIdField, fill), uniqueIdField)
    {
      this.uniqueIdField := uniqueIdField;
      var a := args;
      if fill && IsSet(a, StrKey("attributes")) && a[StrKey("attributes")].Arr? {
        var envelope := a[StrKey("attributes")].m;
        if IsSet(a, StrKey("id")) {
          envelope := envelope[StrKey(uniqueIdField) := a[StrKey("id")]];
        }
        a := envelope;
      }
      id := Null;
      if IsSet(a, StrKey(uniqueIdField)) {
        id := a[StrKey(uniqueIdField)];
        a := a - {StrKey(uniqueIdField)};
      }
      attributes := a;
    }

    /** An item has an id exactly when its array form carries the id
        field. */
    predicate HasId()
      reads this
      ensures HasId() <==> StrKey(uniqueIdField) in ArrayView(id, attributes, uniqueIdField)
    {
      id != Null
    }

    /** The id, null exactly when the item has none; it is what the array
        form carries under the id field. */
    function GetId(): (r: Value)
      reads this
      ensures r != Null <==> HasId()
      ensures HasId() ==> ArrayView(id, attributes, uniqueIdField)[StrKey(uniqueIdField)] == r
    {
      id
    }

    method SetId(v: Value)
      modifies this
      ensures id == v && attributes == old(attributes)
      ensures HasId() <==> v != Null
    {
      id := v;
    }

    method SetAttributes(a: Attrs)
      modifies this
      ensures attributes == a && id == old(id)
    {
      attributes := a;
    }

    /** Writes the current id, null included, into the stored attributes
        under the id field and returns them. */
    method GetAttributes() returns (r: Attrs)
      modifies this
      ensures attributes == old(attributes)[StrKey(uniqueIdField) := id]
      ensures id == old(id) && r == attributes
    {
      attributes := attributes[StrKey(uniqueIdField) := GetId()];
      r := attributes;
    }

    /** Works on the copy `getAttributes` returns; the stored attributes keep
        the id that `getAttributes` wrote into them. */
    method ToArray() returns (r: Attrs)
      modifies this
      ensures r == ArrayView(id, old(attributes), uniqueIdField)
      ensures attributes == old(attributes)[StrKey(uniqueIdField) := id] && id == old(id)
    {
      var data := GetAttributes();
      if !HasId() {
        data := data - {StrKey(uniqueIdField)};
      } else {
        data := data[StrKey(uniqueIdField) := GetId()];
      }
      r := data;
    }
  }
}
