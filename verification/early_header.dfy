/**
 * The earlier variant of the header (src/components/header.tsx): the same
 * name derivation, but the slug is read as `parts[0]` without a length
 * check, so an empty list of parts yields `undefined` and the fallback.
 */
module EarlyHeader {
  import opened Options
  import opened JsStrings
  import Header

  /** `xs[0]` on a JavaScript array: `undefined` when the array is empty. */
  function FirstOrUndefined(xs: seq<string>): (r: Option<string>)
    ensures r.None? <==> xs == []
    ensures r.Some? ==> r.value == xs[0]
  {
    if |xs| == 0 then None else Some(xs[0])
  }

  /** The slug of a path: the first of its non-empty '/'-separated pieces, read without a length check. */
  function Slug(path: string): Option<string>
  {
    FirstOrUndefined(NonEmpty(Split(path, '/')))
  }

  /** The derivation in this variant's effect. */
  function BusinessName(path: string): string
  {
    var slug := Slug(path);
    if slug.Some? && slug.value != "" then Header.FormatSlug(slug.value) else Header.Fallback
  }

  /** The slug, when there is one, is the first segment of the path; otherwise there is none. */
  lemma SlugIsFirstSegment(path: string)
    ensures Slug(path) == if Header.FirstSegment(path) == "" then None else Some(Header.FirstSegment(path))
  {
    Header.FirstPartIsFirstSegment(path);
  }

  /** An empty list of parts gives `undefined`, hence the fallback. */
  lemma FallbackWithoutParts(path: string)
    requires NonEmpty(Split(path, '/')) == []
    ensures Slug(path).None?
    ensures BusinessName(path) == Header.Fallback
  {
  }

  /** Both header variants show the same name for every path. */
  lemma AgreesWithHeader(path: string)
    ensures BusinessName(path) == Header.BusinessName(path)
  {
    Header.FirstPartIsFirstSegment(path);
  }

  /**
   * The example of the source's comment: "/island-dog-pet-wash/" has the
   * slug "island-dog-pet-wash" and the name "Island Dog Pet Wash". The four
   * words are parameters fixed by the precondition, so that the verifier
   * reasons word by word rather than unfolding the whole literal path.
   */
  lemma IslandDogPetWash(island: string, dog: string, pet: string, wash: string)
    requires island == "island" && dog == "dog" && pet == "pet" && wash == "wash"
    ensures var slug := island + "-" + dog + "-" + pet + "-" + wash;
      Slug("/" + slug + "/") == Some(slug) && BusinessName("/" + slug + "/") == "Island Dog Pet Wash"
  {
    var slug := island + "-" + dog + "-" + pet + "-" + wash;
    IslandDogPetWashFormatted(island, dog, pet, wash);
    SegmentBetweenSlashes(slug);
  }

  /** A path "/seg/" has the slug seg, formatted as the name. */
  lemma SegmentBetweenSlashes(seg: string)
    requires seg != "" && '/' !in seg
    ensures Slug("/" + seg + "/") == Some(seg)
    ensures BusinessName("/" + seg + "/") == Header.FormatSlug(seg)
  {
    var path := "/" + seg + "/";
    Header.LaterSegmentsIrrelevant(seg, "");
    assert "/" + seg + "/" + "" == path;
    AgreesWithHeader(path);
    assert path[1..] == seg + "/" + "";
    assert seg[0] in seg;
    Header.PrefixBeforeSegment(seg, "");
    assert Header.StripLeadingSlashes(path) == Header.StripLeadingSlashes(path[1..]);
    assert Header.StripLeadingSlashes(seg + "/" + "") == seg + "/" + "";
    assert Header.FirstSegment(path) == seg;
    SlugIsFirstSegment(path);
  }

  /** The slug of the example is formatted word by word. */
  lemma IslandDogPetWashFormatted(island: string, dog: string, pet: string, wash: string)
    requires island == "island" && dog == "dog" && pet == "pet" && wash == "wash"
    ensures var slug := island + "-" + dog + "-" + pet + "-" + wash;
      slug != "" && '/' !in slug && Header.FormatSlug(slug) == "Island Dog Pet Wash"
  {
    IslandDogPetWashWords(island, dog, pet, wash);
    IslandDogPetWashCapitalized(island, dog, pet, wash);
    assert Join(["Island", "Dog", "Pet", "Wash"], " ") == "Island Dog Pet Wash";
  }

  lemma IslandDogPetWashWords(island: string, dog: string, pet: string, wash: string)
    requires island == "island" && dog == "dog" && pet == "pet" && wash == "wash"
    ensures Split(island + "-" + dog + "-" + pet + "-" + wash, '-') == [island, dog, pet, wash]
  {
    var words := [island, dog, pet, wash];
    assert Join([pet, wash], "-") == pet + "-" + wash;
    assert Join([dog, pet, wash], "-") == dog + "-" + (pet + "-" + wash);
    assert Join(words, "-") == island + "-" + (dog + "-" + (pet + "-" + wash));
    assert island + "-" + (dog + "-" + (pet + "-" + wash)) == island + "-" + dog + "-" + pet + "-" + wash;
    SplitJoin(words, '-');
  }

  lemma IslandDogPetWashCapitalized(island: string, dog: string, pet: string, wash: string)
    requires island == "island" && dog == "dog" && pet == "pet" && wash == "wash"
    ensures Header.CapitalizeWords([island, dog, pet, wash]) == ["Island", "Dog", "Pet", "Wash"]
  {
    assert Header.Capitalize(island) == "Island";
    assert Header.Capitalize(dog) == "Dog";
    assert Header.Capitalize(pet) == "Pet";
    assert Header.Capitalize(wash) == "Wash";
  }

  /** The header's `businessName` state in this variant. */
  class NameDisplay {
    var businessName: string

    /** The initial state: the name before the effect runs. */
    constructor ()
      ensures businessName == Header.Loading
    {
      businessName := Header.Loading;
    }

    /** The mount effect, given `window.location.pathname` (this variant does not check for `window`). */
    method Effect(path: string)
      modifies this
      ensures businessName == BusinessName(path)
      ensures businessName == Header.BusinessName(path)
    {
      var slug := FirstOrUndefined(NonEmpty(Split(path, '/')));
      if slug.Some? && slug.value != "" {
        businessName := Header.FormatSlug(slug.value);
      } else {
        businessName := Header.Fallback;
      }
      AgreesWithHeader(path);
    }
  }
}
