/**
 * The product payload builder (`buildShopifyProductPayload`, `buildTags`):
 * title with fallback, an HTML description of labelled sections in a fixed
 * order, a comma-joined tag list, one image per URL, and constant status and
 * product type.
 */
module Payload {
  import opened Wrappers
  import opened JsValues
  import opened Seqs
  import opened Text
  import opened Mapper

  datatype Image = Image(src: string)

  datatype ProductPayload = ProductPayload(
    title: Value,
    bodyHtml: string,
    handle: string,
    tags: string,
    images: seq<Image>,
    status: string,
    productType: string)

  const Placeholder := "<p>No information available.</p>"
  const ActiveStatus := "active"
  const DogType := "Dog"
  const TagSeparator := ", "

  /** A canonical field that is present and truthy. */
  predicate Given(v: Option<Value>)
  {
    v.Some? && Truthy(v.value)
  }

  /** `${dog.entryId}`: an absent id prints as "undefined". */
  function IdText(entryId: Option<Value>): string
  {
    match entryId
    case Some(v) => Show(v)
    case None => "undefined"
  }

  // ---------------------------------------------------------------- tags

  /** `buildTags`: availability, then litter, breed and gender, each only when set. */
  function BuildTags(dog: Dog): (tags: seq<string>)
    ensures |tags| <= 4
    ensures forall i :: 0 <= i < |tags| ==> tags[i] != ""
    ensures dog.availability != "" <==> |tags| > 0 && tags[0] == dog.availability
  {
    (if dog.availability != "" then [dog.availability] else [])
    + (if Given(dog.litter) then ["Litter: " + Show(dog.litter.value)] else [])
    + (if Given(dog.breed) then ["Breed: " + Show(dog.breed.value)] else [])
    + (if Given(dog.gender) then ["Gender: " + Show(dog.gender.value)] else [])
  }

  function Tagged(prefix: string, v: Option<Value>): Option<string>
  {
    if Given(v) then Some(prefix + Show(v.value)) else None
  }

  /** The four possible tags, in their fixed order. */
  function TagSlots(dog: Dog): seq<Option<string>>
  {
    [ if dog.availability != "" then Some(dog.availability) else None,
      Tagged("Litter: ", dog.litter),
      Tagged("Breed: ", dog.breed),
      Tagged("Gender: ", dog.gender) ]
  }

  /**
   * The tag list is the set slots of the fixed order availability, litter,
   * breed, gender: in that order, none skipped unless its field is unset.
   */
  lemma {:induction false} TagsFollowSlots(dog: Dog)
    ensures BuildTags(dog) == Present(TagSlots(dog))
    ensures |BuildTags(dog)| <= 4
    ensures dog.availability != "" ==> BuildTags(dog)[0] == dog.availability
  {
    var t := TagSlots(dog);
    PresentFour(t[0], t[1], t[2], t[3]);
  }

  // ---------------------------------------------------------------- body

  function StoryPart(story: Option<Value>): string
  {
    if Given(story) then "<p>" + Show(story.value) + "</p>\n\n" else ""
  }

  function SectionPart(heading: string, v: Option<Value>): string
  {
    if Given(v) then "<b>" + heading + ":</b><br>\n" + Show(v.value) + "<br><br>\n\n" else ""
  }

  /** The description before trimming: story, then the six labelled sections in order. */
  function RawBody(dog: Dog): string
  {
    StoryPart(dog.story)
    + SectionPart("LITTER", dog.litter)
    + SectionPart("BIRTHDAY", dog.birthday)
    + SectionPart("BREED", dog.breed)
    + SectionPart("GENDER", dog.gender)
    + SectionPart("SIZE WHEN GROWN", dog.sizeWhenGrown)
    + SectionPart("AVAILABILITY", Some(Str(dog.availability)))
  }

  /** `body_html`: the trimmed description, or the placeholder when it is blank. */
  function BodyHtml(dog: Dog): (body: string)
    ensures body != ""
    ensures body == Placeholder || (body[0] == '<' && body[|body| - 1] == '>')
  {
    PartsAreMarkup(dog);
    FinishMarkup(RawBody(dog));
    FinishBody(RawBody(dog))
  }

  function FinishBody(raw: string): string
  {
    var chosen := if Trim(raw) == "" then Placeholder else raw;
    Trim(chosen)
  }

  /** Finishing a markup description drops its final blank line; an empty one becomes the placeholder. */
  lemma FinishMarkup(raw: string)
    requires raw == "" || Markup(raw)
    ensures raw == "" ==> FinishBody(raw) == Placeholder
    ensures raw != "" ==> FinishBody(raw) == raw[..|raw| - 2]
  {
    if raw == "" {
      assert Trim(raw) == "";
      PlaceholderIsTrimmed();
    } else {
      TrimMarkup(raw);
      var r := raw[..|raw| - 2];
      assert r[0] == '<' && r[|r| - 1] == '>';
      TrimMarkupless(r);
    }
  }

  /** The concatenation of `xs`. */
  function Concat(xs: seq<string>): string
  {
    if |xs| == 0 then "" else Concat(xs[..|xs| - 1]) + xs[|xs| - 1]
  }

  function Block(part: string): Option<string>
  {
    if part == "" then None else Some(part)
  }

  /** The seven description blocks, in their fixed order; an unset field's block is absent. */
  function Blocks(dog: Dog): seq<Option<string>>
  {
    [ Block(StoryPart(dog.story)),
      Block(SectionPart("LITTER", dog.litter)),
      Block(SectionPart("BIRTHDAY", dog.birthday)),
      Block(SectionPart("BREED", dog.breed)),
      Block(SectionPart("GENDER", dog.gender)),
      Block(SectionPart("SIZE WHEN GROWN", dog.sizeWhenGrown)),
      Block(SectionPart("AVAILABILITY", Some(Str(dog.availability)))) ]
  }

  /** Markup: opens with `<` and closes with `>` and a blank line. */
  predicate Markup(s: string)
  {
    |s| >= 3 && s[0] == '<' && s[|s| - 3] == '>' && s[|s| - 2] == '\n' && s[|s| - 1] == '\n'
  }

  lemma MarkupJoin(a: string, b: string)
    requires a == "" || Markup(a)
    requires b == "" || Markup(b)
    ensures a + b == "" || Markup(a + b)
  {
  }

  lemma PartsAreMarkup(dog: Dog)
    ensures RawBody(dog) == "" || Markup(RawBody(dog))
  {
    StoryPartIsMarkup(dog.story);
    SectionPartIsMarkup("LITTER", dog.litter);
    SectionPartIsMarkup("BIRTHDAY", dog.birthday);
    SectionPartIsMarkup("BREED", dog.breed);
    SectionPartIsMarkup("GENDER", dog.gender);
    SectionPartIsMarkup("SIZE WHEN GROWN", dog.sizeWhenGrown);
    SectionPartIsMarkup("AVAILABILITY", Some(Str(dog.availability)));
    MarkupSeven(StoryPart(dog.story), SectionPart("LITTER", dog.litter), SectionPart("BIRTHDAY", dog.birthday),
      SectionPart("BREED", dog.breed), SectionPart("GENDER", dog.gender),
      SectionPart("SIZE WHEN GROWN", dog.sizeWhenGrown), SectionPart("AVAILABILITY", Some(Str(dog.availability))));
  }

  lemma StoryPartIsMarkup(story: Option<Value>)
    ensures StoryPart(story) == "" || Markup(StoryPart(story))
  {
  }

  lemma SectionPartIsMarkup(heading: string, v: Option<Value>)
    ensures SectionPart(heading, v) == "" || Markup(SectionPart(heading, v))
  {
  }

  lemma MarkupSeven(a: string, b: string, c: string, d: string, e: string, f: string, g: string)
    requires a == "" || Markup(a)
    requires b == "" || Markup(b)
    requires c == "" || Markup(c)
    requires d == "" || Markup(d)
    requires e == "" || Markup(e)
    requires f == "" || Markup(f)
    requires g == "" || Markup(g)
    ensures a + b + c + d + e + f + g == "" || Markup(a + b + c + d + e + f + g)
  {
    MarkupJoin(a, b);
    MarkupJoin(a + b, c);
    MarkupJoin(a + b + c, d);
    MarkupJoin(a + b + c + d, e);
    MarkupJoin(a + b + c + d + e, f);
    MarkupJoin(a + b + c + d + e + f, g);
  }

  lemma RawBodyIsBlocks(dog: Dog)
    ensures RawBody(dog) == Concat(Present(Blocks(dog)))
  {
    var t := Blocks(dog);
    PresentSeven(t[0], t[1], t[2], t[3], t[4], t[5], t[6]);
    ConcatOfBlocks(StoryPart(dog.story), SectionPart("LITTER", dog.litter), SectionPart("BIRTHDAY", dog.birthday),
      SectionPart("BREED", dog.breed), SectionPart("GENDER", dog.gender),
      SectionPart("SIZE WHEN GROWN", dog.sizeWhenGrown), SectionPart("AVAILABILITY", Some(Str(dog.availability))));
  }

  lemma ConcatOfBlocks(a: string, b: string, c: string, d: string, e: string, f: string, g: string)
    ensures Concat(Opt(Block(a)) + Opt(Block(b)) + Opt(Block(c)) + Opt(Block(d)) + Opt(Block(e)) + Opt(Block(f)) + Opt(Block(g)))
      == a + b + c + d + e + f + g
  {
    var x1 := Opt(Block(a));
    assert Concat(x1) == a by {
      if a != "" { assert x1[..0] == []; }
    }
    var x2 := x1 + Opt(Block(b));
    ConcatSnocBlock(x1, b);
    var x3 := x2 + Opt(Block(c));
    ConcatSnocBlock(x2, c);
    var x4 := x3 + Opt(Block(d));
    ConcatSnocBlock(x3, d);
    var x5 := x4 + Opt(Block(e));
    ConcatSnocBlock(x4, e);
    var x6 := x5 + Opt(Block(f));
    ConcatSnocBlock(x5, f);
    ConcatSnocBlock(x6, g);
  }

  lemma ConcatSnocBlock(xs: seq<string>, s: string)
    ensures Concat(xs + Opt(Block(s))) == Concat(xs) + s
  {
    if s == "" {
      assert xs + Opt(Block(s)) == xs;
    } else {
      assert (xs + [s])[..|xs|] == xs;
    }
  }

  /**
   * The description: the placeholder when no block is present; otherwise the
   * present blocks in their fixed order, concatenated, less the final blank
   * line that trimming removes.
   */
  lemma BodyFromBlocks(dog: Dog)
    ensures Present(Blocks(dog)) == [] ==> BodyHtml(dog) == Placeholder
    ensures Present(Blocks(dog)) != [] ==> BodyHtml(dog) + "\n\n" == Concat(Present(Blocks(dog)))
  {
    RawBodyIsBlocks(dog);
    PartsAreMarkup(dog);
    var raw := RawBody(dog);
    FinishMarkup(raw);
    if Present(Blocks(dog)) != [] {
      BlocksAreNonEmpty(dog);
      PresentNonEmptyConcat(Blocks(dog));
      RestoreBlankLine(raw);
    }
  }

  lemma RestoreBlankLine(raw: string)
    requires Markup(raw)
    ensures raw[..|raw| - 2] + "\n\n" == raw
  {
  }

  lemma BlocksAreNonEmpty(dog: Dog)
    ensures forall i :: 0 <= i < |Blocks(dog)| && Blocks(dog)[i].Some? ==> Blocks(dog)[i].value != ""
  {
    SevenBlocksNonEmpty(StoryPart(dog.story), SectionPart("LITTER", dog.litter), SectionPart("BIRTHDAY", dog.birthday),
      SectionPart("BREED", dog.breed), SectionPart("GENDER", dog.gender),
      SectionPart("SIZE WHEN GROWN", dog.sizeWhenGrown), SectionPart("AVAILABILITY", Some(Str(dog.availability))));
  }

  lemma SevenBlocksNonEmpty(a: string, b: string, c: string, d: string, e: string, f: string, g: string)
    ensures var t := [Block(a), Block(b), Block(c), Block(d), Block(e), Block(f), Block(g)];
      forall i :: 0 <= i < |t| && t[i].Some? ==> t[i].value != ""
  {
  }

  lemma PlaceholderIsTrimmed()
    ensures Trim(Placeholder) == Placeholder
  {
    TrimMarkupless(Placeholder);
  }

  /** A string with visible characters at both ends is its own trim. */
  lemma TrimMarkupless(s: string)
    requires |s| > 0 && !IsSpace(s[0]) && !IsSpace(s[|s| - 1])
    ensures Trim(s) == s
  {
    var r := Trim(s);
    var i, j :| 0 <= i <= j <= |s| && r == s[i..j] && AllSpace(s[..i]) && AllSpace(s[j..]);
    assert !AllSpace(s);
  }

  /** Present blocks are never empty strings, so a non-empty list concatenates to a non-empty string. */
  lemma PresentNonEmptyConcat(t: seq<Option<string>>)
    requires forall i :: 0 <= i < |t| && t[i].Some? ==> t[i].value != ""
    requires Present(t) != []
    ensures Concat(Present(t)) != ""
  {
    PresentOrder(t);
    var p := Present(t);
    assert p[|p| - 1] == t[PresentIndices(t)[|p| - 1]].value;
  }

  /** The story paragraph, when set, opens the description. */
  lemma StoryComesFirst(dog: Dog)
    requires Given(dog.story)
    ensures "<p>" + Show(dog.story.value) + "</p>" <= BodyHtml(dog)
  {
    PartsAreMarkup(dog);
    var raw := RawBody(dog);
    FinishMarkup(raw);
    var par := "<p>" + Show(dog.story.value) + "</p>";
    ParagraphThenBlankLine(Show(dog.story.value));
    PrefixKept(StoryPart(dog.story), SectionPart("LITTER", dog.litter), SectionPart("BIRTHDAY", dog.birthday),
      SectionPart("BREED", dog.breed), SectionPart("GENDER", dog.gender),
      SectionPart("SIZE WHEN GROWN", dog.sizeWhenGrown), SectionPart("AVAILABILITY", Some(Str(dog.availability))), par);
  }

  lemma ParagraphThenBlankLine(x: string)
    ensures "<p>" + x + "</p>\n\n" == ("<p>" + x + "</p>") + "\n\n"
  {
  }

  lemma PrefixKept(a: string, b: string, c: string, d: string, e: string, f: string, g: string, p: string)
    requires a == p + "\n\n"
    ensures var raw := a + b + c + d + e + f + g;
      |raw| >= 2 ==> p <= raw[..|raw| - 2]
  {
    var raw := a + b + c + d + e + f + g;
    assert raw[..|p|] == p;
  }

  /** The availability section, when set, closes the description. */
  lemma AvailabilityComesLast(dog: Dog)
    requires dog.availability != ""
    ensures var tail := "<b>AVAILABILITY:</b><br>\n" + dog.availability + "<br><br>";
      |tail| <= |BodyHtml(dog)| && BodyHtml(dog)[|BodyHtml(dog)| - |tail|..] == tail
  {
    PartsAreMarkup(dog);
    var raw := RawBody(dog);
    FinishMarkup(raw);
    var tail := "<b>AVAILABILITY:</b><br>\n" + dog.availability + "<br><br>";
    AvailabilityThenBlankLine(dog.availability);
    SuffixKept(StoryPart(dog.story) + SectionPart("LITTER", dog.litter) + SectionPart("BIRTHDAY", dog.birthday)
      + SectionPart("BREED", dog.breed) + SectionPart("GENDER", dog.gender)
      + SectionPart("SIZE WHEN GROWN", dog.sizeWhenGrown), SectionPart("AVAILABILITY", Some(Str(dog.availability))), tail);
  }

  lemma AvailabilityThenBlankLine(x: string)
    requires x != ""
    ensures SectionPart("AVAILABILITY", Some(Str(x))) == ("<b>AVAILABILITY:</b><br>\n" + x + "<br><br>") + "\n\n"
  {
    assert "<b>" + "AVAILABILITY" + ":</b><br>\n" == "<b>AVAILABILITY:</b><br>\n";
  }

  lemma SuffixKept(front: string, last: string, tail: string)
    requires last == tail + "\n\n"
    ensures var raw := front + last;
      raw[..|raw| - 2][|raw| - 2 - |tail|..] == tail
  {
    var raw := front + last;
    assert raw[..|raw| - 2] == front + tail;
  }

  // ---------------------------------------------------------------- payload

  /** One image reference per URL, in the same order. */
  function Images(urls: seq<string>): (images: seq<Image>)
    ensures |images| == |urls|
    ensures forall i :: 0 <= i < |urls| ==> images[i] == Image(urls[i])
  {
    if |urls| > 0 then seq(|urls|, i requires 0 <= i < |urls| => Image(urls[i])) else []
  }

  /** `dog.name || `Dog ${dog.entryId}``. */
  function Title(dog: Dog): (t: Value)
    ensures Given(dog.name) ==> t == dog.name.value
    ensures !Given(dog.name) ==> t == Str("Dog " + IdText(dog.entryId))
  {
    if Given(dog.name) then dog.name.value else Str("Dog " + IdText(dog.entryId))
  }

  /** `buildShopifyProductPayload(dog, handle)`. */
  function BuildPayload(dog: Dog, handle: string): (p: ProductPayload)
    ensures p.handle == handle
    ensures p.status == ActiveStatus && p.productType == DogType
    ensures |p.images| == |dog.imageUrls|
    ensures forall i :: 0 <= i < |p.images| ==> p.images[i] == Image(dog.imageUrls[i])
    ensures Given(dog.name) ==> p.title == dog.name.value
    ensures !Given(dog.name) ==> p.title == Str("Dog " + IdText(dog.entryId))
    ensures p.bodyHtml == BodyHtml(dog) && p.bodyHtml != ""
    ensures p.tags == Join(BuildTags(dog), TagSeparator)
  {
    ProductPayload(Title(dog), BodyHtml(dog), handle, Join(BuildTags(dog), TagSeparator),
      Images(dog.imageUrls), ActiveStatus, DogType)
  }
}
