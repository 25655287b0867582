/**
  The field page: the route guard on `/fields/:fieldId`, the numbered list of
  the field's subcategories, and the path a click on one of them leads to.
 */
module FieldSelection {
  import opened Wrappers
  import opened Fields
  import opened Taxonomy
  import opened Routes
  import IdeaSubmission
  import SeedFacts

  /** One card of the list: its number as shown and its subcategory. */
  datatype Entry = Entry(number: int, subcategory: Subcategory)

  datatype FieldView = FieldView(field: Field, entries: seq<Entry>, subcategoryCount: int)

  /** `field.subcategories.map((subcategory, index) => ...)`, numbered from 1. */
  function Entries(subs: seq<Subcategory>): (r: seq<Entry>)
    ensures |r| == |subs|
    ensures forall i :: 0 <= i < |r| ==> r[i].number == i + 1 && r[i].subcategory == subs[i]
  {
    seq(|subs|, i requires 0 <= i < |subs| => Entry(i + 1, subs[i]))
  }

  /** The field page: redirect home for an unknown field, else list its subcategories. */
  function FieldSelectionPage(fields: map<string, Field>, fieldId: string): (r: Outcome<FieldView>)
    ensures !r.Throws?
    ensures r.Redirect? <==> fieldId !in fields
    ensures r.Redirect? ==> r.to == HomePath
    ensures r.Render? ==> r.view.field == fields[fieldId]
    ensures r.Render? ==> |r.view.entries| == |fields[fieldId].subcategories| == r.view.subcategoryCount
    ensures r.Render? ==> forall i :: 0 <= i < |r.view.entries| ==>
      r.view.entries[i].number == i + 1 && r.view.entries[i].subcategory == fields[fieldId].subcategories[i]
  {
    match LookupField(fields, fieldId)
    case None => Redirect(HomePath)
    case Some(field) => Render(FieldView(field, Entries(field.subcategories), |field.subcategories|))
  }

  /** The numbers on the cards run 1, 2, ... without gaps, and every subcategory has one card. */
  lemma EntriesNumbered(fields: map<string, Field>, fieldId: string, sub: Subcategory)
    requires FieldSelectionPage(fields, fieldId).Render?
    ensures var v := FieldSelectionPage(fields, fieldId).view;
      && (forall i, j :: 0 <= i < j < |v.entries| ==> v.entries[i].number < v.entries[j].number)
      && (|v.entries| > 0 ==> v.entries[0].number == 1 && v.entries[|v.entries| - 1].number == v.subcategoryCount)
      && (sub in v.field.subcategories <==> exists e :: e in v.entries && e.subcategory == sub)
  {
    var v := FieldSelectionPage(fields, fieldId).view;
    if sub in v.field.subcategories {
      var i :| 0 <= i < |v.field.subcategories| && v.field.subcategories[i] == sub;
      assert v.entries[i] in v.entries;
    }
  }

  /** `handleSubcategoryClick`: the path of the submission page for the subcategory. */
  function SubcategoryClick(fieldId: string, subcategoryId: string): (path: string)
    ensures Segment(fieldId) && Segment(subcategoryId) ==> ParseSubmitPath(path) == Some((fieldId, subcategoryId))
  {
    ParseSubmitPathRoundTrip(fieldId, subcategoryId);
    SubmitPath(fieldId, subcategoryId)
  }

  /**
    Every card of a well-formed taxonomy leads to a submission page that
    renders, for the very field and subcategory on the card.
   */
  lemma EveryClickRenders(fields: map<string, Field>, fieldId: string, i: int)
    requires WellFormedTaxonomy(fields)
    requires FieldSelectionPage(fields, fieldId).Render?
    requires 0 <= i < |FieldSelectionPage(fields, fieldId).view.entries|
    ensures var v := FieldSelectionPage(fields, fieldId).view;
      var params := ParseSubmitPath(SubcategoryClick(fieldId, v.entries[i].subcategory.id));
      && params.Some?
      && IdeaSubmission.SubmissionPage(fields, params.value.0, params.value.1)
        == Render(IdeaSubmission.SubmissionView(v.field, v.entries[i].subcategory))
  {
    var field := fields[fieldId];
    FindOwnSubcategory(field.subcategories, i);
  }

  /**
    The page as written: an inherited key such as `constructor` is truthy,
    so there is no redirect, and reading `field.name.toLowerCase()` or
    `field.subcategories.map` of it throws a `TypeError`.
   */
  function FieldSelectionPageAsWritten(fields: map<string, Field>, fieldId: string): (r: Outcome<FieldView>)
    ensures r.Throws? <==> fieldId !in fields && fieldId in ObjectPrototypeKeys
    ensures !r.Throws? ==> r == FieldSelectionPage(fields, fieldId)
  {
    match LookupAsWritten(fields, fieldId)
    case Undefined => Redirect(HomePath)
    case Inherited(_) => Throws
    case Own(field) => Render(FieldView(field, Entries(field.subcategories), |field.subcategories|))
  }

  /**
    On the shipped taxonomy, `/fields/constructor` and
    `/submit/constructor/<any>` crash the pages as written, where the own-key
    lookup sends the visitor home.
   */
  lemma ConstructorRouteCrashes(subcategoryId: string)
    ensures FieldSelectionPageAsWritten(InnovationFields, "constructor") == Throws
    ensures FieldSelectionPage(InnovationFields, "constructor") == Redirect(HomePath)
    ensures IdeaSubmission.SubmissionPageAsWritten(InnovationFields, "constructor", subcategoryId) == Throws
    ensures IdeaSubmission.SubmissionPage(InnovationFields, "constructor", subcategoryId) == Redirect(HomePath)
  {
    SeedFacts.TaxonomyShape();
    assert "constructor" in ObjectPrototypeKeys;
  }
}
