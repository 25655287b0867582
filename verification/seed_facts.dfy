/**
  Facts about the constant tables, established by computation: the shape of
  the taxonomy, that it is addressable by the routes, and the invariants the
  seed ideas keep. Each fact about a literal is proved for one field or one
  idea at a time and then combined, which keeps every proof small.
 */
module SeedFacts {
  import opened Wrappers
  import opened Fields
  import opened Taxonomy
  import opened Routes
  import opened Dates

  /** Six fields under these keys; `tech` has eight subcategories, the others six. */
  lemma TaxonomyShape()
    ensures InnovationFields.Keys == {"tech", "transport", "business", "community", "railways", "healthcare"}
    ensures |InnovationFields| == 6
    ensures |InnovationFields["tech"].subcategories| == 8
    ensures forall k :: k in InnovationFields && k != "tech" ==> |InnovationFields[k].subcategories| == 6
  {
    assert |InnovationFields.Keys| == 6;
  }

  /* Each field's id and subcategory ids are path segments, and the subcategory ids are unique. */

  lemma TechFieldAddressable()
    ensures Segment(TechField.id)
    ensures UniqueSubcategoryIds(TechField.subcategories)
    ensures forall i :: 0 <= i < |TechField.subcategories| ==> Segment(TechField.subcategories[i].id)
  {
    var subs := TechField.subcategories;
    assert forall k :: 0 <= k < |TechField.id| ==> TechField.id[k] != '/';
    forall i | 0 <= i < |subs|
      ensures Segment(subs[i].id)
    {
      assert forall k :: 0 <= k < |subs[i].id| ==> subs[i].id[k] != '/';
    }
    forall i, j | 0 <= i < j < |subs|
      ensures subs[i].id != subs[j].id
    {
    }
  }

  lemma TransportFieldAddressable()
    ensures Segment(TransportField.id)
    ensures UniqueSubcategoryIds(TransportField.subcategories)
    ensures forall i :: 0 <= i < |TransportField.subcategories| ==> Segment(TransportField.subcategories[i].id)
  {
    var subs := TransportField.subcategories;
    assert forall k :: 0 <= k < |TransportField.id| ==> TransportField.id[k] != '/';
    forall i | 0 <= i < |subs|
      ensures Segment(subs[i].id)
    {
      assert forall k :: 0 <= k < |subs[i].id| ==> subs[i].id[k] != '/';
    }
    forall i, j | 0 <= i < j < |subs|
      ensures subs[i].id != subs[j].id
    {
    }
  }

  lemma BusinessFieldAddressable()
    ensures Segment(BusinessField.id)
    ensures UniqueSubcategoryIds(BusinessField.subcategories)
    ensures forall i :: 0 <= i < |BusinessField.subcategories| ==> Segment(BusinessField.subcategories[i].id)
  {
    var subs := BusinessField.subcategories;
    assert forall k :: 0 <= k < |BusinessField.id| ==> BusinessField.id[k] != '/';
    forall i | 0 <= i < |subs|
      ensures Segment(subs[i].id)
    {
      assert forall k :: 0 <= k < |subs[i].id| ==> subs[i].id[k] != '/';
    }
    forall i, j | 0 <= i < j < |subs|
      ensures subs[i].id != subs[j].id
    {
    }
  }

  lemma CommunityFieldAddressable()
    ensures Segment(CommunityField.id)
    ensures UniqueSubcategoryIds(CommunityField.subcategories)
    ensures forall i :: 0 <= i < |CommunityField.subcategories| ==> Segment(CommunityField.subcategories[i].id)
  {
    var subs := CommunityField.subcategories;
    assert forall k :: 0 <= k < |CommunityField.id| ==> CommunityField.id[k] != '/';
    forall i | 0 <= i < |subs|
      ensures Segment(subs[i].id)
    {
      assert forall k :: 0 <= k < |subs[i].id| ==> subs[i].id[k] != '/';
    }
    forall i, j | 0 <= i < j < |subs|
      ensures subs[i].id != subs[j].id
    {
    }
  }

  lemma RailwaysFieldAddressable()
    ensures Segment(RailwaysField.id)
    ensures UniqueSubcategoryIds(RailwaysField.subcategories)
    ensures forall i :: 0 <= i < |RailwaysField.subcategories| ==> Segment(RailwaysField.subcategories[i].id)
  {
    var subs := RailwaysField.subcategories;
    assert forall k :: 0 <= k < |RailwaysField.id| ==> RailwaysField.id[k] != '/';
    forall i | 0 <= i < |subs|
      ensures Segment(subs[i].id)
    {
      assert forall k :: 0 <= k < |subs[i].id| ==> subs[i].id[k] != '/';
    }
    forall i, j | 0 <= i < j < |subs|
      ensures subs[i].id != subs[j].id
    {
    }
  }

  lemma HealthcareFieldAddressable()
    ensures Segment(HealthcareField.id)
    ensures UniqueSubcategoryIds(HealthcareField.subcategories)
    ensures forall i :: 0 <= i < |HealthcareField.subcategories| ==> Segment(HealthcareField.subcategories[i].id)
  {
    var subs := HealthcareField.subcategories;
    assert forall k :: 0 <= k < |HealthcareField.id| ==> HealthcareField.id[k] != '/';
    forall i | 0 <= i < |subs|
      ensures Segment(subs[i].id)
    {
      assert forall k :: 0 <= k < |subs[i].id| ==> subs[i].id[k] != '/';
    }
    forall i, j | 0 <= i < j < |subs|
      ensures subs[i].id != subs[j].id
    {
    }
  }

  /** Every key is its field's id, and the ids can be used in paths and looked up unambiguously. */
  lemma {:induction false} TaxonomyWellFormed()
    ensures WellFormedTaxonomy(InnovationFields)
  {
    TechFieldAddressable();
    TransportFieldAddressable();
    BusinessFieldAddressable();
    CommunityFieldAddressable();
    RailwaysFieldAddressable();
    HealthcareFieldAddressable();
    assert InnovationFields.Keys == {"tech", "transport", "business", "community", "railways", "healthcare"};
  }

  /** The seed ideas are numbered 1 to 5 in source order, so their ids are unique and ascending. */
  lemma IdeaIds()
    ensures |MockIdeas| == 5
    ensures forall i :: 0 <= i < |MockIdeas| ==> MockIdeas[i].id == i + 1
    ensures forall i, j :: 0 <= i < j < |MockIdeas| ==> MockIdeas[i].id < MockIdeas[j].id
  {
  }

  /** Every seed idea has non-negative upvotes and one of the three known statuses. */
  lemma IdeaStatusesAndUpvotes()
    ensures forall i :: 0 <= i < |MockIdeas| ==>
      MockIdeas[i].upvotes >= 0 && MockIdeas[i].status in {Implemented, UnderDevelopment, InReview}
  {
  }

  /* The dates of the seed ideas, read as `YYYY-MM-DD`, one idea at a time. */

  lemma TrafficSignalDate()
    ensures ParseDate(TrafficSignalIdea.date) == Some(Date(2024, 1, 15))
  {
  }

  lemma LandRegistryDate()
    ensures ParseDate(LandRegistryIdea.date) == Some(Date(2024, 1, 12))
  {
  }

  lemma WasteCollectionDate()
    ensures ParseDate(WasteCollectionIdea.date) == Some(Date(2024, 1, 10))
  {
  }

  lemma RuralLearningDate()
    ensures ParseDate(RuralLearningIdea.date) == Some(Date(2024, 1, 8))
  {
  }

  lemma WaterPurificationDate()
    ensures ParseDate(WaterPurificationIdea.date) == Some(Date(2024, 1, 5))
  {
  }

  /** Every seed date is a valid `YYYY-MM-DD`, and they strictly decrease in source order. */
  lemma {:induction false} SeedDatesDecrease()
    ensures forall i :: 0 <= i < |MockIdeas| ==> ParseDate(MockIdeas[i].date).Some?
    ensures forall i, j :: 0 <= i < j < |MockIdeas| ==>
      Before(ParseDate(MockIdeas[j].date).value, ParseDate(MockIdeas[i].date).value)
  {
    TrafficSignalDate();
    LandRegistryDate();
    WasteCollectionDate();
    RuralLearningDate();
    WaterPurificationDate();
  }

  /** `idea` names `field` and one of its subcategories. */
  predicate NamesIdea(field: Field, idea: Idea)
  {
    field.name == idea.field
    && exists j :: 0 <= j < |field.subcategories| && field.subcategories[j].name == idea.subcategory
  }

  lemma SeedIdeasNameFields()
    ensures NamesIdea(TransportField, TrafficSignalIdea)
    ensures NamesIdea(TechField, LandRegistryIdea)
    ensures NamesIdea(CommunityField, WasteCollectionIdea)
    ensures NamesIdea(CommunityField, RuralLearningIdea)
    ensures NamesIdea(CommunityField, WaterPurificationIdea)
  {
    assert TransportField.subcategories[4].name == TrafficSignalIdea.subcategory;
    assert TechField.subcategories[4].name == LandRegistryIdea.subcategory;
    assert CommunityField.subcategories[3].name == WasteCollectionIdea.subcategory;
    assert CommunityField.subcategories[0].name == RuralLearningIdea.subcategory;
    assert CommunityField.subcategories[4].name == WaterPurificationIdea.subcategory;
  }

  /** The three fields the seed ideas name, under their keys. */
  lemma SeedFieldEntries()
    ensures "transport" in InnovationFields && InnovationFields["transport"] == TransportField
    ensures "tech" in InnovationFields && InnovationFields["tech"] == TechField
    ensures "community" in InnovationFields && InnovationFields["community"] == CommunityField
  {
  }

  /** Some field of `fields` is named by `idea`, together with one of its subcategories. */
  predicate NamesSomeField(fields: map<string, Field>, idea: Idea)
  {
    exists k :: k in fields && NamesIdea(fields[k], idea)
  }

  lemma SeedIdeasNameSomeField()
    ensures NamesSomeField(InnovationFields, TrafficSignalIdea)
    ensures NamesSomeField(InnovationFields, LandRegistryIdea)
    ensures NamesSomeField(InnovationFields, WasteCollectionIdea)
    ensures NamesSomeField(InnovationFields, RuralLearningIdea)
    ensures NamesSomeField(InnovationFields, WaterPurificationIdea)
  {
    SeedIdeasNameFields();
    SeedFieldEntries();
  }

  /**
    Each seed idea names an existing field and one of its subcategories, by
    display name. The code relies on this nowhere; it holds of the data.
   */
  lemma {:induction false} IdeasNameTaxonomy()
    ensures forall i :: 0 <= i < |MockIdeas| ==> NamesSomeField(InnovationFields, MockIdeas[i])
  {
    SeedIdeasNameSomeField();
  }
}
