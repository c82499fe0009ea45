/** The URL parser of `list_artifact`: the pattern
    `https://wandb\.ai/([^/]+)/([^/]+)/artifacts/([^/]+)/([^/]+)/([^/]+)`
    applied with `re.match`, i.e. anchored at the start only. */
module ArtifactUrl {
  import opened Base
  import opened Text

  const Host := "https://wandb.ai/"
  const Kind := "artifacts/"
  const InvalidUrl := "Invalid new-format W&B artifact URL"

  /** The five captured groups. */
  datatype ArtifactRef = ArtifactRef(entity: string, project: string, artType: string, name: string, version: string)

  /** What a `[^/]+` group can capture. */
  predicate Segment(s: string)
  {
    |s| > 0 && '/' !in s
  }

  predicate WellFormed(a: ArtifactRef)
  {
    Segment(a.entity) && Segment(a.project) && Segment(a.artType) && Segment(a.name) && Segment(a.version)
  }

  /** `w/rest`. */
  function Seg(w: string, rest: string): string
  {
    w + "/" + rest
  }

  /** The URL of an artifact followed by `rest`. */
  function Url(a: ArtifactRef, rest: string): string
  {
    Host + Seg(a.entity, Seg(a.project, Kind + Seg(a.artType, Seg(a.name, a.version + rest))))
  }

  /** The canonical URL of an artifact. */
  function Render(a: ArtifactRef): string
  {
    Url(a, [])
  }

  /** What may follow the version when the match succeeds: the greedy last
      group stops only at a '/' or at the end of the URL. */
  predicate Trailer(rest: string)
  {
    rest == [] || rest[0] == '/'
  }

  /** The longest '/'-free prefix, as a greedy `[^/]+` consumes it. */
  function TakeSegment(s: string): (w: string)
    ensures |w| <= |s| && w == s[..|w|]
    ensures '/' !in w
    ensures |w| == |s| || s[|w|] == '/'
  {
    if |s| == 0 || s[0] == '/' then
      []
    else
      var w := TakeSegment(s[1..]);
      assert [s[0]] + w == s[..|w| + 1];
      [s[0]] + w
  }

  /** One `([^/]+)/` step: a non-empty segment and the text after its slash. */
  function Field(s: string): (r: Option<(string, string)>)
    ensures r.Some? ==> Segment(r.value.0) && s == Seg(r.value.0, r.value.1)
  {
    var w := TakeSegment(s);
    if 0 < |w| < |s| then
      assert s == w + "/" + s[|w| + 1..];
      Some((w, s[|w| + 1..]))
    else
      None
  }

  /** The final greedy `([^/]+)`: a non-empty segment and what follows it. */
  function LastField(s: string): (r: Option<(string, string)>)
    ensures r.Some? ==> Segment(r.value.0) && Trailer(r.value.1) && s == r.value.0 + r.value.1
    ensures r.None? <==> |s| == 0 || s[0] == '/'
  {
    var w := TakeSegment(s);
    if |w| == 0 then
      None
    else
      assert s == w + s[|w|..];
      Some((w, s[|w|..]))
  }

  /** Strips a literal prefix. */
  function After(s: string, p: string): (r: Option<string>)
    ensures r.Some? ==> s == p + r.value
    ensures r.None? ==> !(|p| <= |s| && s[..|p|] == p)
  {
    if |p| <= |s| && s[..|p|] == p then
      assert s == p + s[|p|..];
      Some(s[|p|..])
    else
      None
  }

  /** The groups `re.match` captures, or the ValueError `list_artifact` raises. */
  function ParseArtifactUrl(url: string): (r: Result<ArtifactRef, PyError>)
    ensures r.Err? ==> r.error == ValueError(InvalidUrl)
    ensures r.Ok? ==> WellFormed(r.value)
    ensures r.Ok? ==> exists rest :: Trailer(rest) && url == Url(r.value, rest)
  {
    match After(url, Host)
    case None => Err(ValueError(InvalidUrl))
    case Some(s0) =>
      match Field(s0)
      case None => Err(ValueError(InvalidUrl))
      case Some((entity, s1)) =>
        match Field(s1)
        case None => Err(ValueError(InvalidUrl))
        case Some((project, s2)) =>
          match After(s2, Kind)
          case None => Err(ValueError(InvalidUrl))
          case Some(s3) =>
            match Field(s3)
            case None => Err(ValueError(InvalidUrl))
            case Some((artType, s4)) =>
              match Field(s4)
              case None => Err(ValueError(InvalidUrl))
              case Some((name, s5)) =>
                match LastField(s5)
                case None => Err(ValueError(InvalidUrl))
                case Some((version, rest)) =>
                  var a := ArtifactRef(entity, project, artType, name, version);
                  Assemble(url, a, rest, s0, s1, s2, s3, s4, s5);
                  Ok(a)
  }

  lemma Assemble(url: string, a: ArtifactRef, rest: string, s0: string, s1: string, s2: string, s3: string, s4: string, s5: string)
    requires url == Host + s0 && s0 == Seg(a.entity, s1) && s1 == Seg(a.project, s2)
    requires s2 == Kind + s3 && s3 == Seg(a.artType, s4) && s4 == Seg(a.name, s5)
    requires s5 == a.version + rest
    ensures url == Url(a, rest)
  {
  }

  /** The identifier handed to `api.artifact`: "entity/project/name:version". */
  function ArtifactId(a: ArtifactRef): (id: string)
    // the first two '/'-separated fields read back as entity and project
    ensures Segment(a.entity) && Segment(a.project) ==>
      && Field(id) == Some((a.entity, Seg(a.project, a.name + ":" + a.version)))
      && Field(Seg(a.project, a.name + ":" + a.version)) == Some((a.project, a.name + ":" + a.version))
  {
    var tail := a.name + ":" + a.version;
    var id := a.entity + "/" + a.project + "/" + a.name + ":" + a.version;
    assert id == Seg(a.entity, Seg(a.project, tail));
    if Segment(a.entity) && Segment(a.project) then
      FieldOf(a.entity, Seg(a.project, tail));
      FieldOf(a.project, tail);
      id
    else
      id
  }

  /** `list_artifact` up to the download: the identifier and, separately, the type. */
  function ArtifactRequest(url: string): (r: Result<(string, string), PyError>)
    ensures r.Err? <==> ParseArtifactUrl(url).Err?
    ensures r.Err? ==> r.error == ValueError(InvalidUrl)
    ensures r.Ok? ==> r.value == (ArtifactId(ParseArtifactUrl(url).value), ParseArtifactUrl(url).value.artType)
  {
    match ParseArtifactUrl(url)
    case Err(e) => Err(e)
    case Ok(a) => Ok((ArtifactId(a), a.artType))
  }

  lemma {:induction false} TakeSegmentStops(w: string, rest: string)
    requires '/' !in w && Trailer(rest)
    ensures TakeSegment(w + rest) == w
  {
    if |w| > 0 {
      assert (w + rest)[1..] == w[1..] + rest;
      TakeSegmentStops(w[1..], rest);
    }
  }

  lemma FieldOf(w: string, rest: string)
    requires Segment(w)
    ensures Field(Seg(w, rest)) == Some((w, rest))
  {
    assert Seg(w, rest) == w + ("/" + rest);
    TakeSegmentStops(w, "/" + rest);
  }

  /** Every well-formed artifact URL, followed by nothing or by a '/'-led
      trailer, parses back to its five parts. */
  lemma {:induction false} UrlParses(a: ArtifactRef, rest: string)
    requires WellFormed(a) && Trailer(rest)
    ensures ParseArtifactUrl(Url(a, rest)) == Ok(a)
  {
    var s5 := a.version + rest;
    var s4 := Seg(a.name, s5);
    var s3 := Seg(a.artType, s4);
    var s2 := Kind + s3;
    var s1 := Seg(a.project, s2);
    var s0 := Seg(a.entity, s1);
    assert After(Url(a, rest), Host) == Some(s0) by { assert (Host + s0)[..|Host|] == Host; }
    FieldOf(a.entity, s1);
    FieldOf(a.project, s2);
    assert After(s2, Kind) == Some(s3) by { assert s2[..|Kind|] == Kind; }
    FieldOf(a.artType, s4);
    FieldOf(a.name, s5);
    TakeSegmentStops(a.version, rest);
    assert s5[|a.version|..] == rest;
    assert LastField(s5) == Some((a.version, rest));
  }

  /** Parsing succeeds exactly on the URLs that render a well-formed artifact
      followed by a trailer; the captured parts are then those of the URL. */
  lemma ParseIff(url: string, a: ArtifactRef)
    ensures ParseArtifactUrl(url) == Ok(a) <==>
      WellFormed(a) && exists rest :: Trailer(rest) && url == Url(a, rest)
  {
    if WellFormed(a) && exists rest :: Trailer(rest) && url == Url(a, rest) {
      var rest :| Trailer(rest) && url == Url(a, rest);
      UrlParses(a, rest);
    }
  }

  /** The match is anchored at the start only: anything after a '/' that
      follows the version is ignored and yields the same identifier. */
  lemma TrailingPathIgnored(a: ArtifactRef, tail: string)
    requires WellFormed(a)
    ensures ArtifactRequest(Url(a, "/" + tail)) == ArtifactRequest(Render(a))
    ensures ArtifactRequest(Render(a)) == Ok((ArtifactId(a), a.artType))
  {
    UrlParses(a, "/" + tail);
    UrlParses(a, []);
  }

  /** A URL with an empty segment is refused. */
  lemma EmptySegmentRefused()
    ensures ParseArtifactUrl("https://wandb.ai/e//artifacts/t/n/v") == Err(ValueError(InvalidUrl))
  {
    var s1 := "/artifacts/t/n/v";
    assert "https://wandb.ai/e//artifacts/t/n/v" == Host + Seg("e", s1);
    assert After(Host + Seg("e", s1), Host) == Some(Seg("e", s1)) by {
      assert (Host + Seg("e", s1))[..|Host|] == Host;
    }
    FieldOf("e", s1);
    assert TakeSegment(s1) == [];
  }
}
