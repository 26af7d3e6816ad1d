/** The details page's embed servers: `getSource(source, type, id, season, episode)` picks
    a server by name and fills its movie or tv URL template. */
module DetailsSources {

  import opened Wrappers
  import opened Text

  /** The server names `getSource` knows. */
  const SourceNames: set<string> := {"Native", "VidLink", "VidsrcXYZ", "VidsrcSU", "Vidora", "VidFast", "Videasy"}

  /** An optional argument as a template literal writes it: an omitted one is its default 0. */
  function Arg(v: Option<string>): string {
    if v.Some? then v.value else "0"
  }

  datatype Server = Native | VidLink | VidsrcXYZ | VidsrcSU | Vidora | VidFast | Videasy

  /** The `case` label that selects a server. */
  function ServerName(server: Server): string {
    match server
    case Native => "Native"
    case VidLink => "VidLink"
    case VidsrcXYZ => "VidsrcXYZ"
    case VidsrcSU => "VidsrcSU"
    case Vidora => "Vidora"
    case VidFast => "VidFast"
    case Videasy => "Videasy"
  }

  /** The `switch(source)`: the server whose label is the name, if any. */
  function ServerOf(source: string): (r: Option<Server>)
    ensures r.Some? ==> ServerName(r.value) == source
  {
    if source == "Native" then Some(Native)
    else if source == "VidLink" then Some(VidLink)
    else if source == "VidsrcXYZ" then Some(VidsrcXYZ)
    else if source == "VidsrcSU" then Some(VidsrcSU)
    else if source == "Vidora" then Some(Vidora)
    else if source == "VidFast" then Some(VidFast)
    else if source == "Videasy" then Some(Videasy)
    else None
  }

  /** Every server is selected by its own label, so the switch misses exactly the names that
      are no label. */
  lemma ServerOfName(source: string)
    ensures ServerOf(source).None? <==> source !in SourceNames
    ensures forall server :: ServerOf(ServerName(server)) == Some(server)
  {
  }

  /** A server's movie URL. */
  function MovieUrl(server: Server, id: string): string {
    match server
    case Native => "/e/primenet/" + id
    case VidLink => "https://vidlink.pro/movie/" + id + "?primaryColor=FFFFFF&secondaryColor=2392EE&title=true&poster=false&autoplay=false"
    case VidsrcXYZ => "https://vidsrc.xyz/embed/movie?tmdb=" + id
    case VidsrcSU => "https://vidsrc.su/embed/movie/" + id + "?serverselector=false"
    case Vidora => "https://vidora.su/movie/" + id + "?autoplay=true&colour=2392EE&autonextepisode=true&pausescreen=false"
    case VidFast => "https://vidfast.pro/movie/" + id + "?autoPlay=true&theme=2392EE&poster=false"
    case Videasy => "https://player.videasy.net/movie/" + id + "?color=2392EE"
  }

  /** A server's tv URL. */
  function TvUrl(server: Server, id: string, s: string, e: string): string {
    match server
    case Native => "/e/primenet/" + id + "/" + s + "/" + e
    case VidLink =>
      "https://vidlink.pro/tv/" + id + "/" + s + "/" + e + "?primaryColor=2392EE&secondaryColor=FFFFFF&title=true&poster=false&autoplay=false&nextbutton=true"
    case VidsrcXYZ => "https://vidsrc.xyz/embed/tv/" + id + "/" + s + "-" + e
    case VidsrcSU => "https://vidsrc.su/embed/tv/" + id + "/" + s + "/" + e + "?serverselector=false"
    case Vidora => "https://vidora.su/tv/" + id + "/" + s + "/" + e + "?autoplay=true&colour=2392EE&autonextepisode=true&pausescreen=false"
    case VidFast => "https://vidfast.pro/tv/" + id + "/" + s + "/" + e + "?autoPlay=true&theme=2392EE&poster=false"
    case Videasy =>
      "https://player.videasy.net/tv/" + id + "/" + s + "/" + e + "?color=2392EE&nextEpisode=true&episodeSelector=true&autoplayNextEpisode=false"
  }

  /** `getSource`: the URL of the server, or the 'Invalid source' error for an unknown name.
      The arguments are taken in the text form the template literal gives them. */
  function GetSource(source: string, mediaType: string, id: string, season: Option<string>, episode: Option<string>): (r: Result<string, string>)
    ensures r.Err? <==> ServerOf(source).None?
    ensures r.Err? ==> r.error == "Invalid source"
  {
    match ServerOf(source)
    case None => Err("Invalid source")
    case Some(server) =>
      Ok(if mediaType == "movie" then MovieUrl(server, id) else TvUrl(server, id, Arg(season), Arg(episode)))
  }

  /** A movie URL does not depend on season and episode, and every type other than
      "movie" gets the tv URL. */
  lemma TemplateChoice(source: string, mediaType: string, id: string, s1: Option<string>, e1: Option<string>, s2: Option<string>, e2: Option<string>)
    ensures mediaType == "movie" ==> GetSource(source, mediaType, id, s1, e1) == GetSource(source, mediaType, id, s2, e2)
    ensures mediaType != "movie" ==> GetSource(source, mediaType, id, s1, e1) == GetSource(source, "tv", id, s1, e1)
  {
  }

  /** Omitted season and episode are written as 0. */
  lemma DefaultsAreZero(source: string, mediaType: string, id: string)
    ensures GetSource(source, mediaType, id, None, None) == GetSource(source, mediaType, id, Some("0"), Some("0"))
  {
  }

  predicate NoSlash(s: string) { forall i :: 0 <= i < |s| ==> s[i] != '/' }

  /** The Native path splits back into the id, season and episode it was built from, when
      none of them holds a '/'. */
  lemma {:induction false} NativePath(mediaType: string, id: string, season: Option<string>, episode: Option<string>)
    requires NoSlash(id) && NoSlash(Arg(season)) && NoSlash(Arg(episode))
    ensures GetSource("Native", mediaType, id, season, episode).Ok?
    ensures var parts := Split(GetSource("Native", mediaType, id, season, episode).value, '/');
      parts == ["", "e", "primenet", id] + (if mediaType == "movie" then [] else [Arg(season), Arg(episode)])
  {
    var s, e := Arg(season), Arg(episode);
    assert ServerOf("Native") == Some(Native);
    if mediaType == "movie" {
      assert GetSource("Native", mediaType, id, season, episode).value == "/e/primenet/" + id;
      NativeMovie(id);
    } else {
      assert GetSource("Native", mediaType, id, season, episode).value == "/e/primenet/" + id + "/" + s + "/" + e;
      NativeShow(id, s, e);
    }
  }

  lemma NativeMovie(id: string)
    requires NoSlash(id)
    ensures Split("/e/primenet/" + id, '/') == ["", "e", "primenet", id]
  {
    SplitNoSep(id, '/');
    PrimenetSplit(id);
  }

  lemma NativeShow(id: string, s: string, e: string)
    requires NoSlash(id) && NoSlash(s) && NoSlash(e)
    ensures Split("/e/primenet/" + id + "/" + s + "/" + e, '/') == ["", "e", "primenet", id, s, e]
  {
    var rest := id + "/" + s + "/" + e;
    assert rest == id + ['/'] + s + ['/'] + e;
    assert "/e/primenet/" + id + "/" + s + "/" + e == "/e/primenet/" + rest;
    SplitThree(id, s, e, '/');
    PrimenetSplit(rest);
  }

  lemma PrimenetSplit(rest: string)
    ensures Split("/e/primenet/" + rest, '/') == ["", "e", "primenet"] + Split(rest, '/')
  {
    var tail := "primenet" + ['/'] + rest;
    assert "/e/primenet/" + rest == [] + ['/'] + (['e'] + ['/'] + tail);
    SplitAppendSep([], ['e'] + ['/'] + tail, '/');
    SplitAppendSep(['e'], tail, '/');
    SplitAppendSep("primenet", rest, '/');
    assert [[]] + ([['e']] + (["primenet"] + Split(rest, '/'))) == ["", "e", "primenet"] + Split(rest, '/');
  }
}
