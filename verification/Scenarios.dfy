/**
 * Worked examples of the sync, on concrete submissions: the availability
 * wording, an end-to-end mapping, and the handle's exact text.
 */
module Scenarios {
  import opened Wrappers
  import opened JsValues
  import opened Availability
  import opened Mapper
  import opened Handles
  import opened Payload
  import opened Upsert
  import Seqs
  import Text

  /** A nursery wording, in any case, becomes the "coming soon" label. */
  lemma NurseryWordingIsSoon()
    ensures Normalize(Some(Str("Nursery - accepting deposits"))) == SoonLabel
  {
    var v := Text.Lower("Nursery - accepting deposits");
    assert v[..7] == "nursery";
    OccurrenceIncludes(v, "nursery", 0);
  }

  /** No availability at all means the dog is available now. */
  lemma MissingAvailabilityIsNow()
    ensures Normalize(None) == NowLabel
    ensures Normalize(Some(Str(""))) == NowLabel
  {
  }

  /** "Adopted!" carries the adopted word. */
  lemma AdoptedWording()
    ensures Normalize(Some(Str("Adopted!"))) == AdoptedLabel
  {
    LowerAdoptedExclaimed();
    AdoptedText("adopted!");
  }

  lemma LowerAdoptedExclaimed()
    ensures Text.Lower("Adopted!") == "adopted!"
  {
  }

  lemma AdoptedText(v: string)
    requires v == "adopted!"
    ensures !Text.Includes(v, "nursery") && !Text.Includes(v, "soon") && Text.Includes(v, "adopted")
  {
    MissingCharExcludes(v, "nursery", 'n');
    MissingCharExcludes(v, "soon", 's');
    OccurrenceIncludes(v, "adopted", 0);
  }

  /** A wording that matches no rule is kept as written. */
  lemma UnknownWordingIsKept()
    ensures Normalize(Some(Str("On hold"))) == "On hold"
  {
    LowerOnHold();
    OnHoldText("on hold");
  }

  lemma LowerOnHold()
    ensures Text.Lower("On hold") == "on hold"
  {
  }

  lemma OnHoldText(v: string)
    requires v == "on hold"
    ensures !Text.Includes(v, "nursery") && !Text.Includes(v, "soon")
    ensures !Text.Includes(v, "adopted") && !Text.Includes(v, "available")
  {
    MissingCharExcludes(v, "nursery", 'u');
    MissingCharExcludes(v, "soon", 's');
    MissingCharExcludes(v, "adopted", 'a');
    MissingCharExcludes(v, "available", 'a');
  }

  const Rex: RawRecord := map["Id" := Str("1-1"), "DogName" := Str("Rex"), "Breed" := Str("Lab")]

  /** A minimal submission: its name and breed, availability defaulted, no photos. */
  lemma RexIsMapped()
    ensures MapDog(Rex).entryId == Some(Str("1-1"))
    ensures MapDog(Rex).name == Some(Str("Rex"))
    ensures MapDog(Rex).breed == Some(Str("Lab"))
    ensures MapDog(Rex).litter == None && MapDog(Rex).gender == None
    ensures MapDog(Rex).availability == NowLabel
    ensures MapDog(Rex).imageUrls == []
  {
    RexNamed();
    RexUnset();
    RexBreed();
    RexWithoutPhotos();
  }

  lemma RexWithoutPhotos()
    ensures MapDog(Rex).imageUrls == []
  {
    NoPhotosNoImages(Rex);
  }

  lemma RexNamed()
    ensures Resolve(Rex, NameKeys) == Some(Str("Rex"))
  {
  }

  lemma RexBreed()
    ensures Resolve(Rex, BreedKeys) == Some(Str("Lab"))
  {
  }

  lemma RexUnset()
    ensures Resolve(Rex, StoryKeys) == None && Resolve(Rex, LitterKeys) == None
    ensures Resolve(Rex, BirthdayKeys) == None && Resolve(Rex, GenderKeys) == None
    ensures Resolve(Rex, SizeKeys) == None && Resolve(Rex, AvailabilityKeys) == None
  {
    RexUnsetStory();
    RexUnsetSize();
  }

  lemma RexUnsetStory()
    ensures Resolve(Rex, StoryKeys) == None && Resolve(Rex, LitterKeys) == None
    ensures Resolve(Rex, BirthdayKeys) == None
  {
  }

  lemma RexUnsetSize()
    ensures Resolve(Rex, GenderKeys) == None
    ensures Resolve(Rex, SizeKeys) == None && Resolve(Rex, AvailabilityKeys) == None
  {
  }

  /** Rex is tagged "Available: Now, Breed: Lab". */
  lemma RexTags()
    ensures Seqs.Join(BuildTags(MapDog(Rex)), TagSeparator) == "Available: Now, Breed: Lab"
  {
    RexIsMapped();
    NowAndBreedTags(MapDog(Rex));
  }

  lemma NowAndBreedTags(dog: Dog)
    requires dog.availability == NowLabel && dog.breed == Some(Str("Lab"))
    requires dog.litter == None && dog.gender == None
    ensures Seqs.Join(BuildTags(dog), TagSeparator) == "Available: Now, Breed: Lab"
  {
    var breed := "Breed: " + Show(dog.breed.value);
    assert BuildTags(dog) == [NowLabel, breed];
    BreedLab(breed);
    JoinTwo(NowLabel, breed, TagSeparator);
    NowThenBreed(NowLabel + TagSeparator + breed);
  }

  lemma BreedLab(breed: string)
    requires breed == "Breed: " + "Lab"
    ensures breed == "Breed: Lab"
  {
  }

  lemma NowThenBreed(tags: string)
    requires tags == "Available: Now" + ", " + "Breed: Lab"
    ensures tags == "Available: Now, Breed: Lab"
  {
  }

  lemma JoinTwo(a: string, b: string, sep: string)
    ensures Seqs.Join([a, b], sep) == a + sep + b
  {
    assert [a, b][..1] == [a];
  }

  /** Rex's product is filed under "dog-1-1" and titled "Rex", with no images. */
  lemma RexPayload()
    ensures DeriveHandle(Str("1-1")) == "dog-1-1"
    ensures BuildPayload(MapDog(Rex), "dog-1-1").title == Str("Rex")
    ensures BuildPayload(MapDog(Rex), "dog-1-1").images == []
  {
    RexIsMapped();
    RexHandle();
    NamedWithoutPhotos(MapDog(Rex), "dog-1-1");
  }

  lemma RexHandle()
    ensures DeriveHandle(Str("1-1")) == "dog-1-1"
  {
  }

  lemma NamedWithoutPhotos(dog: Dog, handle: string)
    requires dog.name == Some(Str("Rex")) && dog.imageUrls == []
    ensures BuildPayload(dog, handle).title == Str("Rex")
    ensures BuildPayload(dog, handle).images == []
  {
    PayloadTitled(dog, handle);
    PayloadWithoutImages(dog, handle);
  }

  lemma PayloadTitled(dog: Dog, handle: string)
    requires dog.name == Some(Str("Rex"))
    ensures BuildPayload(dog, handle).title == Str("Rex")
  {
    assert Given(dog.name);
  }

  lemma PayloadWithoutImages(dog: Dog, handle: string)
    requires dog.imageUrls == []
    ensures BuildPayload(dog, handle).images == []
  {
    assert |BuildPayload(dog, handle).images| == 0;
  }

  /** The entry id's letter case is kept in the handle. */
  lemma HandleKeepsCase()
    ensures DeriveHandle(Str("AB-1")) == "dog-AB-1"
  {
  }

  /** A numeric entry id is printed in decimal. */
  lemma NumericEntryId()
    ensures DeriveHandle(Num(24)) == "dog-24"
  {
  }

  /** An empty `DogName` falls through to `Name`. */
  lemma EmptyAliasFallsThrough()
    ensures Resolve(map["DogName" := Str(""), "Name" := Str("Rex")], NameKeys) == Some(Str("Rex"))
  {
  }
}
