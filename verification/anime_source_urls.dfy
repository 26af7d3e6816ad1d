/** The URL each anime server gives, worked out from its template. */
module AnimeSourceUrls {

  import opened Wrappers
  import opened Url
  import opened Templates
  import opened AnimeSources

  /** The end of a template the language selects. */
  function LanguagePath(language: string): string {
    if language == "dub" then "/dub" else "/sub"
  }

  /** The values fit the template theory when the unencoded ones hold no '{'. */
  predicate BraceFree(episode: EpisodeData, anime: AnimeData) {
    NoBrace(Str(episode.epid)) && NoBrace(Or(episode.episodeid, "")) && NoBrace(Or(anime.tmdbId, "")) &&
    NoBrace(Or(anime.season, "1")) && NoBrace(Str(episode.episodeNo))
  }

  /** A server whose template is a well-formed rendering with distinct placeholders gives
      that template with every placeholder substituted by its value. */
  lemma SourceUrl(source: AnimeSource, language: string, t: Template, episode: EpisodeData, anime: AnimeData)
    requires FindSource(Sources, source.id) == Some(source)
    requires TemplateFor(source, language) == Render(t) && WellFormed(t) && DistinctSlots(t)
    requires BraceFree(episode, anime)
    ensures GetSourceUrl(source.id, language, episode, anime) == Render(Substitute(t, Values(episode, anime)))
  {
    ValuesFit(episode, anime);
    ReplaceChainFills(t, Values(episode, anime));
    FillChainSubstitutes(t, Values(episode, anime));
  }

  /** One literal part in front of a template. */
  lemma LiteralStep(text: string, rest: Template, values: seq<(string, string)>)
    requires NoBrace(text) && WellFormed(rest) && DistinctSlots(rest)
    ensures var t := Literal(text, rest);
      WellFormed(t) && DistinctSlots(t) && Render(t) == text + Render(rest) &&
      Substitute(t, values) == Literal(text, Substitute(rest, values)) &&
      Render(Substitute(t, values)) == text + Render(Substitute(rest, values))
  {
  }

  /** One placeholder part with the value `x` in front of a template without it. */
  lemma SlotStep(p: string, x: string, rest: Template, values: seq<(string, string)>)
    requires IsPlaceholder(p) && Lookup(values, p) == Some(x) && WellFormed(rest) && DistinctSlots(rest) && !HasSlot(rest, p)
    ensures var t := Slot(p, rest);
      WellFormed(t) && DistinctSlots(t) && Render(t) == p + Render(rest) &&
      Render(Substitute(t, values)) == x + Render(Substitute(rest, values))
  {
    assert Substitute(Slot(p, rest), values) == Literal(x, Substitute(rest, values));
  }

  /** The empty template, and the last literal part. */
  lemma TailStep(tail: string, values: seq<(string, string)>)
    requires NoBrace(tail)
    ensures WellFormed(End) && DistinctSlots(End) && Render(End) == "" && Render(Substitute(End, values)) == ""
    ensures var t := Literal(tail, End);
      WellFormed(t) && DistinctSlots(t) && Render(t) == tail && Render(Substitute(t, values)) == tail
  {
    LiteralStep(tail, End, values);
  }

  /** `head{p}tail`. */
  lemma OneSlot(head: string, p: string, tail: string, values: seq<(string, string)>, x: string)
    requires NoBrace(head) && IsPlaceholder(p) && NoBrace(tail) && Lookup(values, p) == Some(x)
    ensures var t := Literal(head, Slot(p, Literal(tail, End)));
      WellFormed(t) && DistinctSlots(t) && Render(t) == head + p + tail &&
      Render(Substitute(t, values)) == head + x + tail
  {
    var t2 := Literal(tail, End);
    TailStep(tail, values);
    assert !HasSlot(t2, p);
    SlotStep(p, x, t2, values);
    LiteralStep(head, Slot(p, t2), values);
  }

  /** `head{p1}mid{p2}tail`. */
  lemma TwoSlots(head: string, p1: string, mid: string, p2: string, tail: string, values: seq<(string, string)>,
                 x1: string, x2: string)
    requires NoBrace(head) && NoBrace(mid) && NoBrace(tail) && IsPlaceholder(p1) && IsPlaceholder(p2) && p1 != p2
    requires Lookup(values, p1) == Some(x1) && Lookup(values, p2) == Some(x2)
    ensures var t := Literal(head, Slot(p1, Literal(mid, Slot(p2, Literal(tail, End)))));
      WellFormed(t) && DistinctSlots(t) && Render(t) == head + p1 + mid + p2 + tail &&
      Render(Substitute(t, values)) == head + x1 + mid + x2 + tail
  {
    var t3 := Literal(tail, End);
    TailStep(tail, values);
    assert !HasSlot(t3, p1);
    assert !HasSlot(t3, p2);
    var t2 := Slot(p2, t3);
    SlotStep(p2, x2, t3, values);
    assert !HasSlot(t2, p1);
    var t1 := Literal(mid, t2);
    LiteralStep(mid, t2, values);
    assert !HasSlot(t1, p1);
    SlotStep(p1, x1, t1, values);
    LiteralStep(head, Slot(p1, t1), values);
  }

  /** A placeholder part and a "/" in front of a template without it. */
  lemma SeparatedSlot(p: string, x: string, rest: Template, values: seq<(string, string)>)
    requires IsPlaceholder(p) && Lookup(values, p) == Some(x) && WellFormed(rest) && DistinctSlots(rest) && !HasSlot(rest, p)
    ensures var t := Slot(p, Literal("/", rest));
      WellFormed(t) && DistinctSlots(t) && Render(t) == p + "/" + Render(rest) &&
      Render(Substitute(t, values)) == x + "/" + Render(Substitute(rest, values))
  {
    assert NoBrace("/");
    LiteralStep("/", rest, values);
    assert !HasSlot(Literal("/", rest), p);
    SlotStep(p, x, Literal("/", rest), values);
    assert p + ("/" + Render(rest)) == p + "/" + Render(rest);
    assert x + ("/" + Render(Substitute(rest, values))) == x + "/" + Render(Substitute(rest, values));
  }

  /** A template keeps out a name its first placeholder part and its rest keep out. */
  lemma SeparatedSlotWithout(p: string, rest: Template, q: string)
    requires p != q && !HasSlot(rest, q)
    ensures !HasSlot(Slot(p, Literal("/", rest)), q)
  {
  }

  /** `head{p1}/{p2}/{p3}/{p4}`. */
  lemma FourSlots(head: string, p1: string, p2: string, p3: string, p4: string, values: seq<(string, string)>,
                  x1: string, x2: string, x3: string, x4: string)
    requires NoBrace(head) && IsPlaceholder(p1) && IsPlaceholder(p2) && IsPlaceholder(p3) && IsPlaceholder(p4)
    requires p1 != p2 && p1 != p3 && p1 != p4 && p2 != p3 && p2 != p4 && p3 != p4
    requires Lookup(values, p1) == Some(x1) && Lookup(values, p2) == Some(x2)
    requires Lookup(values, p3) == Some(x3) && Lookup(values, p4) == Some(x4)
    ensures var t := Literal(head, Slot(p1, Literal("/", Slot(p2, Literal("/", Slot(p3, Literal("/", Slot(p4, End))))))));
      WellFormed(t) && DistinctSlots(t) && Render(t) == head + p1 + "/" + p2 + "/" + p3 + "/" + p4 &&
      Render(Substitute(t, values)) == head + x1 + "/" + x2 + "/" + x3 + "/" + x4
  {
    var t2 := Slot(p2, Literal("/", Slot(p3, Literal("/", Slot(p4, End)))));
    ThreeSeparated(p1, p2, p3, p4, values, x2, x3, x4);
    var t1 := Slot(p1, Literal("/", t2));
    SeparatedSlot(p1, x1, t2, values);
    LiteralStep(head, t1, values);
    ConcatSeven(head, p1, p2, p3, p4);
    ConcatSeven(head, x1, x2, x3, x4);
  }

  /** `{p2}/{p3}/{p4}`, which keeps out a fourth placeholder `p1`. */
  lemma ThreeSeparated(p1: string, p2: string, p3: string, p4: string, values: seq<(string, string)>,
                       x2: string, x3: string, x4: string)
    requires IsPlaceholder(p2) && IsPlaceholder(p3) && IsPlaceholder(p4)
    requires p1 != p2 && p1 != p3 && p1 != p4 && p2 != p3 && p2 != p4 && p3 != p4
    requires Lookup(values, p2) == Some(x2) && Lookup(values, p3) == Some(x3) && Lookup(values, p4) == Some(x4)
    ensures var t := Slot(p2, Literal("/", Slot(p3, Literal("/", Slot(p4, End)))));
      WellFormed(t) && DistinctSlots(t) && !HasSlot(t, p1) &&
      Render(t) == p2 + "/" + (p3 + "/" + p4) &&
      Render(Substitute(t, values)) == x2 + "/" + (x3 + "/" + x4)
  {
    var t3 := Slot(p3, Literal("/", Slot(p4, End)));
    TwoSeparated(p1, p2, p3, p4, values, x3, x4);
    SeparatedSlot(p2, x2, t3, values);
    SeparatedSlotWithout(p2, t3, p1);
  }

  /** `{p3}/{p4}`, which keeps out two more placeholders `p1` and `p2`. */
  lemma TwoSeparated(p1: string, p2: string, p3: string, p4: string, values: seq<(string, string)>,
                     x3: string, x4: string)
    requires IsPlaceholder(p3) && IsPlaceholder(p4)
    requires p1 != p3 && p1 != p4 && p2 != p3 && p2 != p4 && p3 != p4
    requires Lookup(values, p3) == Some(x3) && Lookup(values, p4) == Some(x4)
    ensures var t := Slot(p3, Literal("/", Slot(p4, End)));
      WellFormed(t) && DistinctSlots(t) && !HasSlot(t, p1) && !HasSlot(t, p2) &&
      Render(t) == p3 + "/" + p4 && Render(Substitute(t, values)) == x3 + "/" + x4
  {
    TailStep("", values);
    var t4 := Slot(p4, End);
    SlotStep(p4, x4, End, values);
    assert !HasSlot(t4, p1);
    assert !HasSlot(t4, p2);
    assert !HasSlot(t4, p3);
    SeparatedSlot(p3, x3, t4, values);
    SeparatedSlotWithout(p3, t4, p1);
    SeparatedSlotWithout(p3, t4, p2);
  }

  lemma ConcatSeven(a: string, b: string, c: string, d: string, e: string)
    ensures a + (b + "/" + (c + "/" + (d + "/" + e))) == a + b + "/" + c + "/" + d + "/" + e
  {
  }

  // ---- the values of the placeholders ----

  lemma EpidValue(episode: EpisodeData, anime: AnimeData)
    ensures Lookup(Values(episode, anime), EpidHole) == Some(Str(episode.epid))
  {
    LookupFirst(Values(episode, anime), EpidHole, 0);
  }

  lemma UrlEpisodeIdValue(episode: EpisodeData, anime: AnimeData)
    ensures Lookup(Values(episode, anime), UrlEpisodeIdHole) == Some(EncodeURIComponent(Or(episode.episodeid, "")))
  {
    LookupFirst(Values(episode, anime), UrlEpisodeIdHole, 2);
  }

  lemma SeasonValue(episode: EpisodeData, anime: AnimeData)
    ensures Lookup(Values(episode, anime), SeasonHole) == Some(Or(anime.season, "1"))
  {
    LookupFirst(Values(episode, anime), SeasonHole, 4);
  }

  lemma EpisodeValue(episode: EpisodeData, anime: AnimeData)
    ensures Lookup(Values(episode, anime), EpisodeHole) == Some(Str(episode.episodeNo))
  {
    LookupFirst(Values(episode, anime), EpisodeHole, 5);
  }

  lemma NameValue(episode: EpisodeData, anime: AnimeData)
    ensures Lookup(Values(episode, anime), NameHole) == Some(EncodeURIComponent(Str(anime.name)))
  {
    LookupFirst(Values(episode, anime), NameHole, 6);
  }

  // ---- the table's templates, read as templates ----

  lemma ZenimeFound(n: nat)
    requires 1 <= n <= 3
    ensures FindSource(Sources, Sources[n - 1].id) == Some(Sources[n - 1])
  {
    FindSourceAt(Sources, Sources[n - 1].id, n - 1);
  }

  lemma AnimepaheFound()
    ensures FindSource(Sources, "animepahe") == Some(Sources[3]) && Sources[3].id == "animepahe"
  {
    FindSourceAt(Sources, "animepahe", 3);
  }

  lemma AniplayFound()
    ensures FindSource(Sources, "aniplay") == Some(Sources[4]) && Sources[4].id == "aniplay"
  {
    FindSourceAt(Sources, "aniplay", 4);
  }

  lemma MegaplayFound()
    ensures FindSource(Sources, "megaplaybz-1") == Some(Sources[5]) && Sources[5].id == "megaplaybz-1"
  {
    FindSourceAt(Sources, "megaplaybz-1", 5);
  }

  /** The part of a zenime template after the episode id. */
  function ZenimeTail(n: nat, language: string): string
    requires 1 <= n <= 3
  {
    "/" + Sources[n - 1].name + LanguagePath(language)
  }


  function AnimepaheParts(): Template {
    Literal("/embed/animepahe/", Slot(UrlEpisodeIdHole, Literal("/", Slot(NameHole, Literal("/",
      Slot(SeasonHole, Literal("/", Slot(EpisodeHole, End))))))))
  }

  function AniplayParts(language: string): Template {
    Literal("/embed/aniplay/", Slot(UrlEpisodeIdHole, Literal("/", Slot(EpisodeHole, Literal(LanguagePath(language), End)))))
  }

  function MegaplayParts(language: string): Template {
    Literal("https://megaplay.buzz/stream/s-2/", Slot(EpidHole, Literal(LanguagePath(language), End)))
  }

  lemma ZenimeTemplate(n: nat, language: string)
    requires 1 <= n <= 3
    ensures TemplateFor(Sources[n - 1], language) == "/e/zenime/" + UrlEpisodeIdHole + ZenimeTail(n, language)
  {
  }

  lemma ZenimeTailNoBrace(n: nat, language: string)
    requires 1 <= n <= 3
    ensures NoBrace(ZenimeTail(n, language))
  {
    var tail := ZenimeTail(n, language);
    forall i | 0 <= i < |tail| ensures tail[i] != '{' {
      if i > 0 && i - 1 < |Sources[n - 1].name| {
        assert tail[i] == Sources[n - 1].name[i - 1];
      } else if i > 0 {
        assert tail[i] == LanguagePath(language)[i - 1 - |Sources[n - 1].name|];
      }
    }
  }

  /** The literal parts of the templates hold no '{'. */
  lemma Literals(language: string)
    ensures NoBrace("/") && NoBrace("/e/zenime/") && NoBrace("/embed/animepahe/") && NoBrace("/embed/aniplay/")
    ensures NoBrace("https://megaplay.buzz/stream/s-2/") && NoBrace(LanguagePath(language))
  {
  }

  /** A zenime server's URL, for any tail after the episode id. */
  lemma ZenimeSource(source: AnimeSource, tail: string, language: string, episode: EpisodeData, anime: AnimeData)
    requires FindSource(Sources, source.id) == Some(source) && BraceFree(episode, anime)
    requires TemplateFor(source, language) == "/e/zenime/" + UrlEpisodeIdHole + tail && NoBrace(tail)
    ensures GetSourceUrl(source.id, language, episode, anime) ==
      "/e/zenime/" + EncodeURIComponent(Or(episode.episodeid, "")) + tail
  {
    var x := EncodeURIComponent(Or(episode.episodeid, ""));
    UrlEpisodeIdValue(episode, anime);
    Placeholders();
    Literals("");
    OneSlot("/e/zenime/", UrlEpisodeIdHole, tail, Values(episode, anime), x);
    SourceUrl(source, language, Literal("/e/zenime/", Slot(UrlEpisodeIdHole, Literal(tail, End))), episode, anime);
  }

  lemma AnimepaheTemplate(language: string)
    ensures TemplateFor(Sources[3], language) ==
      "/embed/animepahe/" + UrlEpisodeIdHole + "/" + NameHole + "/" + SeasonHole + "/" + EpisodeHole
  {
  }

  lemma AnimepaheShape(language: string, values: seq<(string, string)>, x1: string, x2: string, x3: string, x4: string)
    requires Lookup(values, UrlEpisodeIdHole) == Some(x1) && Lookup(values, NameHole) == Some(x2)
    requires Lookup(values, SeasonHole) == Some(x3) && Lookup(values, EpisodeHole) == Some(x4)
    ensures TemplateFor(Sources[3], language) == Render(AnimepaheParts())
    ensures WellFormed(AnimepaheParts()) && DistinctSlots(AnimepaheParts())
    ensures Render(Substitute(AnimepaheParts(), values)) ==
      "/embed/animepahe/" + x1 + "/" + x2 + "/" + x3 + "/" + x4
  {
    AnimepaheTemplate(language);
    Placeholders();
    Literals(language);
    FourSlots("/embed/animepahe/", UrlEpisodeIdHole, NameHole, SeasonHole, EpisodeHole, values, x1, x2, x3, x4);
  }

  lemma AniplayTemplate(language: string)
    ensures TemplateFor(Sources[4], language) == "/embed/aniplay/" + UrlEpisodeIdHole + "/" + EpisodeHole + LanguagePath(language)
  {
  }

  lemma AniplayShape(language: string, values: seq<(string, string)>, x1: string, x2: string)
    requires Lookup(values, UrlEpisodeIdHole) == Some(x1) && Lookup(values, EpisodeHole) == Some(x2)
    ensures TemplateFor(Sources[4], language) == Render(AniplayParts(language))
    ensures WellFormed(AniplayParts(language)) && DistinctSlots(AniplayParts(language))
    ensures Render(Substitute(AniplayParts(language), values)) == "/embed/aniplay/" + x1 + "/" + x2 + LanguagePath(language)
  {
    AniplayTemplate(language);
    Placeholders();
    Literals(language);
    TwoSlots("/embed/aniplay/", UrlEpisodeIdHole, "/", EpisodeHole, LanguagePath(language), values, x1, x2);
  }

  lemma MegaplayTemplate(language: string)
    ensures TemplateFor(Sources[5], language) == "https://megaplay.buzz/stream/s-2/" + EpidHole + LanguagePath(language)
  {
  }

  lemma MegaplayShape(language: string, values: seq<(string, string)>, x: string)
    requires Lookup(values, EpidHole) == Some(x)
    ensures TemplateFor(Sources[5], language) == Render(MegaplayParts(language))
    ensures WellFormed(MegaplayParts(language)) && DistinctSlots(MegaplayParts(language))
    ensures Render(Substitute(MegaplayParts(language), values)) == "https://megaplay.buzz/stream/s-2/" + x + LanguagePath(language)
  {
    MegaplayTemplate(language);
    Placeholders();
    Literals(language);
    OneSlot("https://megaplay.buzz/stream/s-2/", EpidHole, LanguagePath(language), values, x);
  }

  // ---- the URLs ----

  /** On a zenime server the URL is the server path with the encoded episode id (or
      nothing) in it, ending in "/dub" exactly for the dub language. */
  lemma ZenimeUrl(n: nat, language: string, episode: EpisodeData, anime: AnimeData)
    requires 1 <= n <= 3 && BraceFree(episode, anime)
    ensures GetSourceUrl(Sources[n - 1].id, language, episode, anime) ==
      "/e/zenime/" + EncodeURIComponent(Or(episode.episodeid, "")) + ("/" + Sources[n - 1].name + LanguagePath(language))
  {
    ZenimeFound(n);
    ZenimeTemplate(n, language);
    ZenimeTailNoBrace(n, language);
    ZenimeSource(Sources[n - 1], ZenimeTail(n, language), language, episode, anime);
  }

  /** The animepahe URL carries the encoded episode id, the encoded name, the season (1
      when missing) and the episode number, whatever the language. */
  lemma AnimepaheUrl(language: string, episode: EpisodeData, anime: AnimeData)
    requires BraceFree(episode, anime)
    ensures GetSourceUrl("animepahe", language, episode, anime) ==
      "/embed/animepahe/" + EncodeURIComponent(Or(episode.episodeid, "")) + "/" + EncodeURIComponent(Str(anime.name)) +
      "/" + Or(anime.season, "1") + "/" + Str(episode.episodeNo)
  {
    var v := Values(episode, anime);
    AnimepaheFound();
    UrlEpisodeIdValue(episode, anime);
    NameValue(episode, anime);
    SeasonValue(episode, anime);
    EpisodeValue(episode, anime);
    AnimepaheShape(language, v, EncodeURIComponent(Or(episode.episodeid, "")), EncodeURIComponent(Str(anime.name)),
      Or(anime.season, "1"), Str(episode.episodeNo));
    SourceUrl(Sources[3], language, AnimepaheParts(), episode, anime);
  }

  /** The aniplay URL carries the encoded episode id and the episode number. */
  lemma AniplayUrl(language: string, episode: EpisodeData, anime: AnimeData)
    requires BraceFree(episode, anime)
    ensures GetSourceUrl("aniplay", language, episode, anime) ==
      "/embed/aniplay/" + EncodeURIComponent(Or(episode.episodeid, "")) + "/" + Str(episode.episodeNo) +
      LanguagePath(language)
  {
    var v := Values(episode, anime);
    AniplayFound();
    UrlEpisodeIdValue(episode, anime);
    EpisodeValue(episode, anime);
    AniplayShape(language, v, EncodeURIComponent(Or(episode.episodeid, "")), Str(episode.episodeNo));
    SourceUrl(Sources[4], language, AniplayParts(language), episode, anime);
  }

  /** The megaplay URL carries the raw `epid` ("undefined" when it is missing). */
  lemma MegaplayUrl(language: string, episode: EpisodeData, anime: AnimeData)
    requires BraceFree(episode, anime)
    ensures GetSourceUrl("megaplaybz-1", language, episode, anime) ==
      "https://megaplay.buzz/stream/s-2/" + Str(episode.epid) + LanguagePath(language)
  {
    MegaplayFound();
    EpidValue(episode, anime);
    MegaplayShape(language, Values(episode, anime), Str(episode.epid));
    SourceUrl(Sources[5], language, MegaplayParts(language), episode, anime);
  }
}
