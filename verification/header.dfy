/**
 * The business name shown in the portal's header, derived from the first
 * segment of the URL path (the repository name under which the site is
 * served): "/island-dog-pet-wash/" is shown as "Island Dog Pet Wash", and a
 * path without any segment falls back to "Nexus Portal". This module follows
 * src/components/Header.tsx; the slug formatting here is shared with the
 * earlier variant in module EarlyHeader.
 */
module Header {
  import opened Options
  import opened JsStrings

  /** The name shown when the path has no segment. */
  const Fallback := "Nexus Portal"
  /** The name shown before the effect has run. */
  const Loading := "Loading..."

  /** A word with its first character upper-cased and the rest as it was. */
  function Capitalize(w: string): (r: string)
    ensures |r| == |w|
    ensures |w| > 0 ==> r[0] == Upper(w[0]) && r[1..] == w[1..]
  {
    if w == [] then [] else [Upper(w[0])] + w[1..]
  }

  /** Every word capitalized, in order. */
  function CapitalizeWords(ws: seq<string>): (r: seq<string>)
    ensures |r| == |ws|
    ensures forall i :: 0 <= i < |ws| ==> r[i] == Capitalize(ws[i])
  {
    if ws == [] then [] else [Capitalize(ws[0])] + CapitalizeWords(ws[1..])
  }

  /** The slug split on '-', each word capitalized, the words joined with single spaces. */
  function FormatSlug(slug: string): string
  {
    Join(CapitalizeWords(Split(slug, '-')), " ")
  }

  /**
   * An independent, character-by-character account of the formatting:
   * every '-' becomes a space, the character at the start of a word is
   * upper-cased and every other character is kept. `atStart` says whether
   * `s` begins a word.
   */
  function TitleCase(s: string, atStart: bool): (r: string)
  {
    if s == [] then []
    else
      [if s[0] == '-' then ' ' else if atStart then Upper(s[0]) else s[0]]
      + TitleCase(s[1..], s[0] == '-')
  }

  /** Whether position `i` of `s` begins a word. */
  predicate AtWordStart(s: string, atStart: bool, i: int)
    requires 0 <= i < |s|
  {
    if i == 0 then atStart else s[i - 1] == '-'
  }

  /** What TitleCase does at each position. */
  lemma {:induction false} TitleCaseAt(s: string, atStart: bool)
    ensures |TitleCase(s, atStart)| == |s|
    ensures forall i :: 0 <= i < |s| ==>
      TitleCase(s, atStart)[i] ==
        if s[i] == '-' then ' ' else if AtWordStart(s, atStart, i) then Upper(s[i]) else s[i]
  {
    if s != [] {
      TitleCaseAt(s[1..], s[0] == '-');
      forall i | 0 < i < |s|
        ensures AtWordStart(s, atStart, i) == AtWordStart(s[1..], s[0] == '-', i - 1)
      {
      }
    }
  }

  /** The words of a split, each capitalized, except the first when it does not begin a word. */
  function CapitalizeFrom(ws: seq<string>, atStart: bool): seq<string>
    requires |ws| > 0
  {
    if atStart then CapitalizeWords(ws) else [ws[0]] + CapitalizeWords(ws[1..])
  }

  lemma {:induction false} JoinedWordsAreTitleCase(s: string, atStart: bool)
    ensures Join(CapitalizeFrom(Split(s, '-'), atStart), " ") == TitleCase(s, atStart)
  {
    if s != [] {
      var rest := Split(s[1..], '-');
      if s[0] == '-' {
        JoinedWordsAreTitleCase(s[1..], true);
        var ws := CapitalizeFrom([""] + rest, atStart);
        assert ws == [""] + CapitalizeWords(rest);
        assert ws[1..] == CapitalizeWords(rest);
      } else {
        JoinedWordsAreTitleCase(s[1..], false);
        var x := if atStart then Upper(s[0]) else s[0];
        var ws := CapitalizeFrom([[s[0]] + rest[0]] + rest[1..], atStart);
        assert ws == [[x] + rest[0]] + CapitalizeWords(rest[1..]);
        JoinConsFirst(x, rest[0], CapitalizeWords(rest[1..]), " ");
        assert CapitalizeFrom(rest, false) == [rest[0]] + CapitalizeWords(rest[1..]);
      }
    }
  }

  /** The split/map/join chain formats a slug exactly as TitleCase describes. */
  lemma FormatSlugIsTitleCase(slug: string)
    ensures FormatSlug(slug) == TitleCase(slug, true)
  {
    JoinedWordsAreTitleCase(slug, true);
  }

  /**
   * The formatted name has the slug's length, every '-' of the slug turned
   * into a space, the first character of each word upper-cased and every
   * other character as it was; so it holds no '-', and no '/' unless the slug does.
   */
  lemma FormatSlugShape(slug: string)
    ensures |FormatSlug(slug)| == |slug|
    ensures forall i :: 0 <= i < |slug| ==>
      FormatSlug(slug)[i] ==
        if slug[i] == '-' then ' '
        else if i == 0 || slug[i - 1] == '-' then Upper(slug[i])
        else slug[i]
    ensures '-' !in FormatSlug(slug)
    ensures '/' !in slug ==> '/' !in FormatSlug(slug)
  {
    FormatSlugIsTitleCase(slug);
    TitleCaseAt(slug, true);
    var r := FormatSlug(slug);
    forall i | 0 <= i < |r| ensures r[i] != '-' && ('/' !in slug ==> r[i] != '/') {
      assert slug[i] in slug;
    }
  }

  /**
   * For a slug without spaces, the words of the formatted name (split on
   * spaces) are the slug's '-'-separated words, each capitalized, empty
   * words included: one more than the number of '-' in the slug.
   */
  lemma FormatSlugWords(slug: string)
    requires ' ' !in slug
    ensures Split(FormatSlug(slug), ' ') == CapitalizeWords(Split(slug, '-'))
    ensures |Split(FormatSlug(slug), ' ')| == Count(slug, '-') + 1
  {
    var ws := CapitalizeWords(Split(slug, '-'));
    forall i | 0 <= i < |ws| ensures ' ' !in ws[i] {
      CapitalizeHasNo(Split(slug, '-')[i], ' ');
    }
    SplitJoin(ws, ' ');
  }

  /** Capitalizing introduces no separator the word did not hold. */
  lemma CapitalizeHasNo(w: string, c: char)
    requires c !in w
    requires !('A' <= c <= 'Z')
    ensures c !in Capitalize(w)
  {
    if w != [] {
      assert w[0] in w;
      var r := Capitalize(w);
      forall i | 1 <= i < |r| ensures r[i] != c {
        assert r[i] == w[i];
        assert w[i] in w;
      }
    }
  }

  /**
   * The '-'-joined form of the capitalized words, character by character:
   * the character that starts a word is upper-cased and every other
   * character, '-' included, is kept.
   */
  function DashCase(s: string, atStart: bool): (r: string)
  {
    if s == [] then []
    else
      [if s[0] != '-' && atStart then Upper(s[0]) else s[0]]
      + DashCase(s[1..], s[0] == '-')
  }

  lemma {:induction false} DashJoinedWordsAreDashCase(s: string, atStart: bool)
    ensures Join(CapitalizeFrom(Split(s, '-'), atStart), "-") == DashCase(s, atStart)
  {
    if s != [] {
      var rest := Split(s[1..], '-');
      if s[0] == '-' {
        DashJoinedWordsAreDashCase(s[1..], true);
        var ws := CapitalizeFrom([""] + rest, atStart);
        assert ws == [""] + CapitalizeWords(rest);
        assert ws[1..] == CapitalizeWords(rest);
      } else {
        DashJoinedWordsAreDashCase(s[1..], false);
        var x := if atStart then Upper(s[0]) else s[0];
        var ws := CapitalizeFrom([[s[0]] + rest[0]] + rest[1..], atStart);
        assert ws == [[x] + rest[0]] + CapitalizeWords(rest[1..]);
        JoinConsFirst(x, rest[0], CapitalizeWords(rest[1..]), "-");
        assert CapitalizeFrom(rest, false) == [rest[0]] + CapitalizeWords(rest[1..]);
      }
    }
  }

  /** What DashCase does at each position. */
  lemma {:induction false} DashCaseAt(s: string, atStart: bool)
    ensures |DashCase(s, atStart)| == |s|
    ensures forall i :: 0 <= i < |s| ==>
      DashCase(s, atStart)[i] ==
        if s[i] != '-' && AtWordStart(s, atStart, i) then Upper(s[i]) else s[i]
  {
    if s != [] {
      DashCaseAt(s[1..], s[0] == '-');
      forall i | 0 < i < |s|
        ensures AtWordStart(s, atStart, i) == AtWordStart(s[1..], s[0] == '-', i - 1)
      {
      }
    }
  }

  /**
   * Joining the capitalized words with '-' instead of a space gives the
   * slug back with only the first letter of each word upper-cased (every
   * '-' in its place), and splitting that on '-' gives the same words back.
   */
  lemma DashSeparatorsRoundTrip(slug: string)
    ensures Join(CapitalizeWords(Split(slug, '-')), "-") == DashCase(slug, true)
    ensures |Join(CapitalizeWords(Split(slug, '-')), "-")| == |slug|
    ensures forall i :: 0 <= i < |slug| ==>
      Join(CapitalizeWords(Split(slug, '-')), "-")[i] ==
        if slug[i] != '-' && (i == 0 || slug[i - 1] == '-') then Upper(slug[i]) else slug[i]
    ensures Split(Join(CapitalizeWords(Split(slug, '-')), "-"), '-') == CapitalizeWords(Split(slug, '-'))
  {
    var ws := Split(slug, '-');
    DashJoinedWordsAreDashCase(slug, true);
    DashCaseAt(slug, true);
    forall i | 0 <= i < |ws| ensures '-' !in CapitalizeWords(ws)[i] {
      CapitalizeHasNo(ws[i], '-');
    }
    SplitJoin(CapitalizeWords(ws), '-');
  }

  /** Capitalizing an already capitalized word changes nothing. */
  lemma CapitalizeIdempotent(w: string)
    ensures Capitalize(Capitalize(w)) == Capitalize(w)
  {
    if w != [] {
      UpperIdempotent(w[0]);
    }
  }

  /** A slug without '-' is one word, and formatting it only capitalizes it. */
  lemma FormatSingleWord(w: string)
    requires '-' !in w
    ensures FormatSlug(w) == Capitalize(w)
  {
    SplitNoSeparator(w, '-');
  }

  /** Formatting a formatted name changes nothing. */
  lemma FormatSlugIdempotent(slug: string)
    ensures FormatSlug(FormatSlug(slug)) == FormatSlug(slug)
  {
    var t := FormatSlug(slug);
    FormatSlugShape(slug);
    FormatSingleWord(t);
    if t != [] {
      assert t[0] == if slug[0] == '-' then ' ' else Upper(slug[0]);
      UpperIdempotent(slug[0]);
      assert [t[0]] + t[1..] == t;
    }
  }

  /** `path` with its leading '/' characters removed. */
  function StripLeadingSlashes(path: string): (r: string)
    ensures |r| > 0 ==> r[0] != '/'
  {
    if path != [] && path[0] == '/' then StripLeadingSlashes(path[1..]) else path
  }

  /**
   * An independent account of the segment the name is made from: skip the
   * leading '/' characters and take everything up to the next '/'.
   */
  function FirstSegment(path: string): (seg: string)
    ensures '/' !in seg
  {
    PrefixBefore(StripLeadingSlashes(path), '/')
  }

  /** The first non-empty piece of the path split on '/' is FirstSegment(path). */
  lemma {:induction false} FirstPartIsFirstSegment(path: string)
    ensures |NonEmpty(Split(path, '/'))| == 0 <==> FirstSegment(path) == ""
    ensures |NonEmpty(Split(path, '/'))| > 0 ==> NonEmpty(Split(path, '/'))[0] == FirstSegment(path)
  {
    if path != [] {
      var rest := Split(path[1..], '/');
      if path[0] == '/' {
        FirstPartIsFirstSegment(path[1..]);
        assert ([""] + rest)[1..] == rest;
      } else {
        SplitHead(path[1..], '/');
      }
    }
  }

  /**
   * The derivation in Header's effect: split the path on '/', drop empty
   * pieces, take the first if there is one (`null` otherwise) and format
   * it when it is truthy, else use the fallback.
   */
  function BusinessName(path: string): string
  {
    var parts := NonEmpty(Split(path, '/'));
    var slug: Option<string> := if |parts| > 0 then Some(parts[0]) else None;
    if slug.Some? && slug.value != "" then FormatSlug(slug.value) else Fallback
  }

  /** The name depends only on the first segment of the path. */
  lemma BusinessNameIsFirstSegment(path: string)
    ensures BusinessName(path) ==
      if FirstSegment(path) == "" then Fallback else FormatSlug(FirstSegment(path))
  {
    FirstPartIsFirstSegment(path);
  }

  /** A path made only of '/' characters (for one, "" or "/") has no segment and shows the fallback. */
  lemma FallbackWithoutSegment(path: string)
    requires forall i :: 0 <= i < |path| ==> path[i] == '/'
    ensures BusinessName(path) == Fallback
  {
    BusinessNameIsFirstSegment(path);
    StripAllSlashes(path);
  }

  lemma {:induction false} StripAllSlashes(path: string)
    requires forall i :: 0 <= i < |path| ==> path[i] == '/'
    ensures StripLeadingSlashes(path) == ""
  {
    if path != [] {
      StripAllSlashes(path[1..]);
    }
  }

  /** A leading '/' makes no difference, so neither do repeated leading slashes. */
  lemma LeadingSlashIrrelevant(path: string)
    ensures BusinessName("/" + path) == BusinessName(path)
  {
    BusinessNameIsFirstSegment("/" + path);
    BusinessNameIsFirstSegment(path);
    assert ("/" + path)[1..] == path;
  }

  /** What follows the first segment (a trailing '/', further segments) makes no difference. */
  lemma LaterSegmentsIrrelevant(seg: string, rest: string)
    requires seg != "" && '/' !in seg
    ensures BusinessName(seg + "/" + rest) == FormatSlug(seg)
    ensures BusinessName("/" + seg + "/" + rest) == FormatSlug(seg)
  {
    PrefixBeforeSegment(seg, rest);
    assert seg[0] in seg;
    BusinessNameIsFirstSegment(seg + "/" + rest);
    LeadingSlashIrrelevant(seg + "/" + rest);
    assert "/" + seg + "/" + rest == "/" + (seg + "/" + rest);
  }

  lemma {:induction false} PrefixBeforeSegment(seg: string, rest: string)
    requires '/' !in seg
    ensures PrefixBefore(seg + "/" + rest, '/') == seg
  {
    if seg != [] {
      assert (seg + "/" + rest)[1..] == seg[1..] + "/" + rest;
      PrefixBeforeSegment(seg[1..], rest);
      assert [seg[0]] + seg[1..] == seg;
    }
  }

  /** The shown name never holds a '-' or a '/'. */
  lemma NameHasNoSeparators(path: string)
    ensures '-' !in BusinessName(path)
    ensures '/' !in BusinessName(path)
  {
    BusinessNameIsFirstSegment(path);
    FormatSlugShape(FirstSegment(path));
  }

  /** The header's `businessName` state. */
  class NameDisplay {
    var businessName: string

    /** The initial state: the name before the effect runs. */
    constructor ()
      ensures businessName == Loading
    {
      businessName := Loading;
    }

    /**
     * The mount effect. `location` is `window.location.pathname`, or None
     * when there is no `window`, in which case the effect returns early.
     */
    method Effect(location: Option<string>)
      modifies this
      ensures location.None? ==> businessName == old(businessName)
      ensures location.Some? ==> businessName == BusinessName(location.value)
    {
      if location.None? {
        return;
      }
      var parts := NonEmpty(Split(location.value, '/'));
      var slug: Option<string> := if |parts| > 0 then Some(parts[0]) else None;
      if slug.Some? && slug.value != "" {
        businessName := FormatSlug(slug.value);
      } else {
        businessName := Fallback;
      }
    }
  }
}
