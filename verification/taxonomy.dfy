/**
  Looking up the taxonomy from route parameters: a field by its identifier
  (`innovationFields[fieldId]`) and a subcategory of that field by its
  identifier (`field.subcategories.find(...)`).
 */
module Taxonomy {
  import opened Wrappers
  import opened Fields
  import opened Routes

  /**
    The field stored under `fieldId` as an own key of the table; any other
    identifier finds nothing. This is the lookup the pages are meant to make.
   */
  function LookupField(fields: map<string, Field>, fieldId: string): (r: Option<Field>)
    ensures r.None? <==> fieldId !in fields
    ensures r.Some? ==> fieldId in fields && r.value == fields[fieldId]
  {
    if fieldId in fields then Some(fields[fieldId]) else None
  }

  /** `subs.find(s => s.id === id)`: the first subcategory whose id is `id`. */
  function FindSubcategory(subs: seq<Subcategory>, id: string): (r: Option<Subcategory>)
    ensures r.None? <==> forall i :: 0 <= i < |subs| ==> subs[i].id != id
    ensures r.Some? ==> exists i :: 0 <= i < |subs| && subs[i] == r.value && FirstWithId(subs, id, i)
  {
    if |subs| == 0 then None
    else if subs[0].id == id then
      assert FirstWithId(subs, id, 0);
      Some(subs[0])
    else
      var r := FindSubcategory(subs[1..], id);
      if r.Some? then
        var i :| 0 <= i < |subs[1..]| && subs[1..][i] == r.value && FirstWithId(subs[1..], id, i);
        assert FirstWithId(subs, id, i + 1);
        r
      else r
  }

  /** Position `i` holds the first subcategory with id `id`. */
  predicate FirstWithId(subs: seq<Subcategory>, id: string, i: int)
  {
    0 <= i < |subs| && subs[i].id == id && forall j :: 0 <= j < i ==> subs[j].id != id
  }

  /** The first match is unique: any first match is the one `FindSubcategory` returns. */
  lemma FindSubcategoryFirst(subs: seq<Subcategory>, id: string, i: int)
    requires FirstWithId(subs, id, i)
    ensures FindSubcategory(subs, id) == Some(subs[i])
  {
    var r := FindSubcategory(subs, id);
    var k :| 0 <= k < |subs| && subs[k] == r.value && FirstWithId(subs, id, k);
    assert k == i;
  }

  /**
    The keys every plain JavaScript object inherits from `Object.prototype`
    (including the legacy accessors and `__proto__`). Reading any of them
    from the taxonomy object yields a truthy value even though it is not a
    field.
   */
  const ObjectPrototypeKeys: set<string> := {
    "constructor", "__proto__", "toString", "toLocaleString", "valueOf",
    "hasOwnProperty", "isPrototypeOf", "propertyIsEnumerable",
    "__defineGetter__", "__defineSetter__", "__lookupGetter__", "__lookupSetter__"
  }

  /** What a bracket read on a plain object yields. */
  datatype Property = Own(field: Field) | Inherited(name: string) | Undefined

  /** `innovationFields[fieldId]` as the pages write it: own keys first, then the prototype chain. */
  function LookupAsWritten(fields: map<string, Field>, fieldId: string): (r: Property)
    ensures r.Own? <==> fieldId in fields
    ensures r.Own? ==> r.field == fields[fieldId]
    ensures r.Inherited? <==> fieldId !in fields && fieldId in ObjectPrototypeKeys
    ensures r.Undefined? <==> LookupField(fields, fieldId).None? && fieldId !in ObjectPrototypeKeys
  {
    if fieldId in fields then Own(fields[fieldId])
    else if fieldId in ObjectPrototypeKeys then Inherited(fieldId)
    else Undefined
  }

  /** The two lookups agree exactly on identifiers that are not inherited keys. */
  lemma LookupAsWrittenAgrees(fields: map<string, Field>, fieldId: string)
    ensures fieldId !in ObjectPrototypeKeys ==>
      (LookupAsWritten(fields, fieldId).Own? <==> LookupField(fields, fieldId).Some?)
    ensures LookupAsWritten(fields, fieldId).Own? ==>
      LookupField(fields, fieldId) == Some(LookupAsWritten(fields, fieldId).field)
  {
  }

  /** Within one field no two subcategories share an id. */
  predicate UniqueSubcategoryIds(subs: seq<Subcategory>)
  {
    forall i, j :: 0 <= i < j < |subs| ==> subs[i].id != subs[j].id
  }

  /**
    A taxonomy the routes can address: every key is the field's own id, keys
    and subcategory ids fill a path segment, and subcategory ids are unique
    within their field.
   */
  predicate WellFormedTaxonomy(fields: map<string, Field>)
  {
    forall k :: k in fields ==>
      && fields[k].id == k
      && Segment(k)
      && UniqueSubcategoryIds(fields[k].subcategories)
      && forall i :: 0 <= i < |fields[k].subcategories| ==> Segment(fields[k].subcategories[i].id)
  }

  /** With unique ids, looking up a subcategory by its own id finds it. */
  lemma FindOwnSubcategory(subs: seq<Subcategory>, i: int)
    requires UniqueSubcategoryIds(subs)
    requires 0 <= i < |subs|
    ensures FindSubcategory(subs, subs[i].id) == Some(subs[i])
  {
    FindSubcategoryFirst(subs, subs[i].id, i);
  }
}
