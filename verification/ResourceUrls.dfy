/** The rendering of resource URLs for a media item (CdsResourceManager).

    Transcoded resources are added when the item is rendered, and are not in the database; the
    number in a URL therefore has to count the stored resources only. */
module ResourceUrls {
  import opened Wrappers
  import opened Strings
  import opened Dictionaries
  import opened CdsResource

  const CH_ID3 := 2
  const CH_TRANSCODE := 3
  const CH_EXTURL := 4
  const CH_MP4 := 5
  const CH_FFTH := 6
  const CH_FLAC := 7
  const CH_FANART := 8

  /** A transcoding profile for the item's mime type; `applies` is the outcome of the container and
      FourCC filters. */
  datatype Profile = Profile(name: string, applies: bool, first: bool, hideOriginal: bool,
                             attributes: Pairs, options: Pairs)

  function TranscodedResource(p: Profile): Resource {
    Resource(CH_TRANSCODE, p.attributes, [Pair("pr_name", p.name), Pair("tr", "1")], p.options)
  }

  function ThumbnailResource(attributes: Pairs): Resource {
    Resource(CH_FFTH, attributes, [Pair("rh", IntToString(CH_FFTH))], [Pair("rct", "th")])
  }

  predicate IsTranscoded(r: Resource) {
    Lookup(r.parameters, "tr") == Some("1")
  }

  // ---- insertion of the transcoded resources ----

  function InsertProfiles(rs: seq<Resource>, profiles: seq<Profile>): seq<Resource>
    decreases |profiles|
  {
    if profiles == [] then rs
    else
      var t := TranscodedResource(profiles[0]);
      InsertProfiles(if !profiles[0].applies then rs else if profiles[0].first then [t] + rs else rs + [t],
                     profiles[1..])
  }

  function FrontOnes(profiles: seq<Profile>): seq<Resource> {
    if profiles == [] then []
    else if profiles[0].applies && profiles[0].first then
      FrontOnes(profiles[1..]) + [TranscodedResource(profiles[0])]
    else FrontOnes(profiles[1..])
  }

  function BackOnes(profiles: seq<Profile>): seq<Resource> {
    if profiles == [] then []
    else if profiles[0].applies && !profiles[0].first then
      [TranscodedResource(profiles[0])] + BackOnes(profiles[1..])
    else BackOnes(profiles[1..])
  }

  /** Whatever the profiles, the resources that were there stay together and in order; the new ones
      stand before and behind them. */
  lemma {:induction false} InsertKeepsBlock(rs: seq<Resource>, profiles: seq<Profile>)
    ensures InsertProfiles(rs, profiles) == FrontOnes(profiles) + rs + BackOnes(profiles)
    decreases |profiles|
  {
    if profiles != [] {
      var p := profiles[0];
      var t := TranscodedResource(p);
      var rs1 := if !p.applies then rs else if p.first then [t] + rs else rs + [t];
      InsertKeepsBlock(rs1, profiles[1..]);
      var f, b := FrontOnes(profiles[1..]), BackOnes(profiles[1..]);
      if p.applies && p.first {
        assert f + ([t] + rs) + b == (f + [t]) + rs + b;
      } else if p.applies {
        assert f + (rs + [t]) + b == f + rs + ([t] + b);
      }
    }
  }

  lemma {:induction false} InsertedAreTranscoded(profiles: seq<Profile>)
    ensures forall i :: 0 <= i < |FrontOnes(profiles)| ==> IsTranscoded(FrontOnes(profiles)[i])
    ensures forall i :: 0 <= i < |BackOnes(profiles)| ==> IsTranscoded(BackOnes(profiles)[i])
  {
    if profiles != [] {
      InsertedAreTranscoded(profiles[1..]);
      var t := TranscodedResource(profiles[0]);
      assert t.parameters[1] == Pair("tr", "1") && t.parameters[0].key == "pr_name";
      assert "pr_name"[0] == 'p' && "tr"[0] == 't';
      FindPrefix(t.parameters, "tr", 1);
      assert IsTranscoded(t);
    }
  }

  // ---- one URL ----

  predicate StringOk(s: Option<string>) {
    s.Some? && s.value != ""
  }

  /** The file name suffix that players like to see at the end of a URL. */
  function RenderExtension(contentType: Option<string>, location: Option<string>): Option<string> {
    if StringOk(contentType) && contentType.value != "playlist" then
      Some("/ext/file" + ("." + contentType.value))
    else if StringOk(location) && RIndexOf(location.value, '.') > -1
            && '/' !in location.value[RIndexOf(location.value, '.')..] then
      Some("/ext/file" + location.value[RIndexOf(location.value, '.')..])
    else
      None
  }

  /** The start of every URL of an object, up to the place of the resource number. */
  function UrlBase(virtualUrl: string, objectId: int): string {
    virtualUrl + ("/media/" + (EncodePairs(ObjectDict(objectId), '/', '/') + "/res_id/"))
  }

  function ObjectDict(objectId: int): (d: Pairs)
    ensures BytePairs(d)
  {
    IntToStringIsSafe(objectId);
    [Pair("object_id", IntToString(objectId))]
  }

  function Append(url: string, more: Option<string>): string {
    if more.Some? then url + more.value else url
  }

  /** The resource's own parameters behind the number. */
  function ParamText(parameters: Pairs): string
    requires BytePairs(parameters)
  {
    if parameters == [] then "" else ['/'] + EncodePairs(parameters, '/', '/')
  }

  /** The local URL of a resource without an extension. */
  function LocalUrl(base: string, number: string, parameters: Pairs): string
    requires BytePairs(parameters)
  {
    base + (number + ParamText(parameters))
  }

  /** A thumbnail or album art that lives elsewhere keeps its own URL. */
  predicate IsExternalArt(r: Resource, i: nat) {
    i > 0 && r.handlerType == CH_EXTURL &&
    (Lookup(r.options, "rct") == Some("th") || Lookup(r.options, "rct") == Some("aa"))
  }

  predicate IsAlbumArt(r: Resource, i: nat) {
    && i > 0
    && (r.handlerType == CH_ID3 || r.handlerType == CH_MP4 || r.handlerType == CH_FLAC ||
        r.handlerType == CH_FANART || r.handlerType == CH_EXTURL)
    && Lookup(if r.handlerType == CH_EXTURL then r.options else r.parameters, "rct") == Some("aa")
  }

  // ---- all URLs of an item ----

  datatype Place = AsResource | AsAlbumArt | Hidden

  datatype Rendered = Rendered(url: string, place: Place)

  /** What rendering depends on besides the resources.  `base` is computed once per item by UrlBase;
      `contentTypeOf` looks the mime type of a
      resource's protocolInfo up in the configured mappings. */
  datatype Context = Context(base: string, location: string,
                             contentTypeOf: Resource -> Option<string>)

  function CountStored(rs: seq<Resource>): nat {
    if rs == [] then 0
    else CountStored(rs[..|rs| - 1]) + if IsTranscoded(rs[|rs| - 1]) then 0 else 1
  }

  /** What stands in the place of the resource number. */
  function NumberText(rs: seq<Resource>, i: nat): string
    requires i < |rs|
  {
    if IsTranscoded(rs[i]) then "none" else IntToString(CountStored(rs[..i]))
  }

  /** Some resource up to number `i` is external art. */
  predicate ExternalArtUpTo(rs: seq<Resource>, i: nat)
    requires i <= |rs|
  {
    exists j :: 0 <= j < i && IsExternalArt(rs[j], j)
  }

  predicate AllBytes(rs: seq<Resource>) {
    forall i :: 0 <= i < |rs| ==> BytePairs(rs[i].parameters)
  }

  predicate MissingArtUrl(r: Resource, i: nat) {
    IsExternalArt(r, i) && !StringOk(Lookup(r.options, "url"))
  }

  /** The URL of resource `i` without an extension. */
  function BareUrl(c: Context, rs: seq<Resource>, i: nat): string
    requires i < |rs| && BytePairs(rs[i].parameters)
  {
    var own := Lookup(rs[i].options, "url");
    if IsExternalArt(rs[i], i) && own.Some? then own.value
    else LocalUrl(c.base, NumberText(rs, i), rs[i].parameters)
  }

  /** From the first external art on no extensions are rendered. */
  function Extension(c: Context, rs: seq<Resource>, i: nat): Option<string>
    requires i < |rs|
  {
    if ExternalArtUpTo(rs, i + 1) then None
    else RenderExtension(c.contentTypeOf(rs[i]), if IsTranscoded(rs[i]) then None else Some(c.location))
  }

  /** The URL and the place of resource `i`. */
  function RenderOne(c: Context, rs: seq<Resource>, i: nat, hideOriginal: bool, original: nat): Rendered
    requires i < |rs| && AllBytes(rs)
  {
    if IsAlbumArt(rs[i], i) then Rendered(BareUrl(c, rs, i), AsAlbumArt)
    else Rendered(Append(BareUrl(c, rs, i), Extension(c, rs, i)),
                  if !hideOriginal || IsTranscoded(rs[i]) || original != i then AsResource else Hidden)
  }

  // ---- art ----

  /** What kind of picture a resource stands for; the first resource is none. */
  datatype Picture = NoPicture | ExternalThumbnail | ExternalAlbumArt | EmbeddedAlbumArt

  function PictureOf(r: Resource, i: nat): Picture {
    var external := r.handlerType == CH_EXTURL;
    var embedded := r.handlerType in {CH_ID3, CH_MP4, CH_FLAC, CH_FANART};
    match Lookup(if external then r.options else r.parameters, "rct")
    case Some(rct) =>
      if i == 0 then NoPicture
      else if external && rct == "th" then ExternalThumbnail
      else if external && rct == "aa" then ExternalAlbumArt
      else if embedded && rct == "aa" then EmbeddedAlbumArt
      else NoPicture
    case None => NoPicture
  }

  /** External pictures keep their own URL, album art is no resource but a property of the item, and no
      resource from the first external picture on gets an extension. */
  lemma PicturesAreRendered(c: Context, rs: seq<Resource>, i: nat, hideOriginal: bool, original: nat)
    requires i < |rs| && AllBytes(rs)
    ensures var r, kind := RenderOne(c, rs, i, hideOriginal, original), PictureOf(rs[i], i);
      var local := LocalUrl(c.base, NumberText(rs, i), rs[i].parameters);
      var shown := if !hideOriginal || IsTranscoded(rs[i]) || original != i then AsResource else Hidden;
      match kind
      case ExternalAlbumArt =>
        r.place == AsAlbumArt && (Lookup(rs[i].options, "url").Some? ==> r.url == Lookup(rs[i].options, "url").value)
      case ExternalThumbnail =>
        r.place == shown && (Lookup(rs[i].options, "url").Some? ==> r.url == Lookup(rs[i].options, "url").value)
      case EmbeddedAlbumArt => r == Rendered(local, AsAlbumArt)
      case NoPicture =>
        && r.place == shown
        && r.url == if exists j :: 0 <= j < i && PictureOf(rs[j], j) in {ExternalThumbnail, ExternalAlbumArt} then local
                    else Append(local, RenderExtension(c.contentTypeOf(rs[i]),
                                                       if IsTranscoded(rs[i]) then None else Some(c.location)))
  {
    hide LocalUrl, RenderExtension, NumberText, IsTranscoded, IsExternalArt, IsAlbumArt, PictureOf;
    forall j | 0 <= j <= i
      ensures IsExternalArt(rs[j], j) <==> PictureOf(rs[j], j) in {ExternalThumbnail, ExternalAlbumArt}
    {
      PictureExactly(rs[j], j);
    }
    PictureExactly(rs[i], i);
  }

  lemma PictureExactly(r: Resource, i: nat)
    ensures IsExternalArt(r, i) <==> PictureOf(r, i) in {ExternalThumbnail, ExternalAlbumArt}
    ensures IsAlbumArt(r, i) <==> PictureOf(r, i) in {ExternalAlbumArt, EmbeddedAlbumArt}
  {
  }

  /** The rendering fails exactly for an external picture without a URL. */
  lemma MissingExactly(r: Resource, i: nat)
    ensures MissingArtUrl(r, i) <==>
              && PictureOf(r, i) in {ExternalThumbnail, ExternalAlbumArt}
              && (Lookup(r.options, "url") == None || Lookup(r.options, "url") == Some(""))
  {
  }

  /** The rendered forms of the first `n` resources. */
  function RenderFirst(c: Context, rs: seq<Resource>, n: nat, hideOriginal: bool, original: nat)
    : (out: seq<Rendered>)
    requires n <= |rs| && AllBytes(rs)
    ensures |out| == n
  {
    if n == 0 then []
    else RenderFirst(c, rs, n - 1, hideOriginal, original) +
         [RenderOne(c, rs, n - 1, hideOriginal, original)]
  }

  lemma {:induction false} RenderFirstGrows(c: Context, rs: seq<Resource>, m: nat, n: nat,
                                            hideOriginal: bool, original: nat)
    requires m <= n <= |rs| && AllBytes(rs)
    ensures RenderFirst(c, rs, m, hideOriginal, original) <= RenderFirst(c, rs, n, hideOriginal, original)
  {
    hide RenderOne;
    if m < n {
      RenderFirstGrows(c, rs, m, n - 1, hideOriginal, original);
    }
  }

  lemma RenderFirstAt(c: Context, rs: seq<Resource>, i: nat, n: nat, hideOriginal: bool, original: nat)
    requires i < n <= |rs| && AllBytes(rs)
    ensures RenderFirst(c, rs, n, hideOriginal, original)[i] ==
            RenderOne(c, rs, i, hideOriginal, original)
  {
    hide RenderOne;
    RenderFirstGrows(c, rs, i + 1, n, hideOriginal, original);
  }

  lemma {:induction false} CountStoredSplit(a: seq<Resource>, b: seq<Resource>)
    ensures CountStored(a + b) == CountStored(a) + CountStored(b)
  {
    if b == [] {
      assert a + b == a;
    } else {
      var n := |a + b| - 1;
      assert (a + b)[..n] == a + b[..|b| - 1];
      CountStoredSplit(a, b[..|b| - 1]);
    }
  }

  lemma {:induction false} CountStoredUniform(rs: seq<Resource>, transcoded: bool)
    requires forall i :: 0 <= i < |rs| ==> IsTranscoded(rs[i]) == transcoded
    ensures CountStored(rs) == if transcoded then 0 else |rs|
  {
    if rs != [] {
      CountStoredUniform(rs[..|rs| - 1], transcoded);
    }
  }

  /** The number in the URL of the `k`-th resource that is not transcoded is `k`, wherever and
      however many transcoded resources were inserted; for `k` past the stored ones this is a
      thumbnail appended before the profiles were looked at. */
  lemma StoredResourceKeepsNumber(block: seq<Resource>, profiles: seq<Profile>, k: nat)
    requires k < |block|
    requires forall i :: 0 <= i < |block| ==> !IsTranscoded(block[i])
    ensures |FrontOnes(profiles)| + k < |InsertProfiles(block, profiles)|
    ensures InsertProfiles(block, profiles)[|FrontOnes(profiles)| + k] == block[k]
    ensures NumberText(InsertProfiles(block, profiles), |FrontOnes(profiles)| + k) == IntToString(k)
  {
    hide IsTranscoded, InsertProfiles, FrontOnes, BackOnes, CountStored;
    var f, b := FrontOnes(profiles), BackOnes(profiles);
    var rs := InsertProfiles(block, profiles);
    InsertKeepsBlock(block, profiles);
    InsertedAreTranscoded(profiles);
    assert rs[..|f| + k] == f + block[..k];
    CountStoredSplit(f, block[..k]);
    CountStoredUniform(f, true);
    CountStoredUniform(block[..k], false);
  }

  /** Every other resource of the rendered item is a transcoded one and gets no number. */
  lemma InsertedResourceHasNoNumber(block: seq<Resource>, profiles: seq<Profile>, i: nat)
    requires i < |InsertProfiles(block, profiles)|
    requires i < |FrontOnes(profiles)| || |FrontOnes(profiles)| + |block| <= i
    ensures NumberText(InsertProfiles(block, profiles), i) == "none"
  {
    InsertKeepsBlock(block, profiles);
    InsertedAreTranscoded(profiles);
  }

  /** "Hide the original resource" hides stored resource 0 and nothing else. */
  lemma OnlyOriginalIsHidden(c: Context, block: seq<Resource>, profiles: seq<Profile>, i: nat, hideOriginal: bool)
    requires AllBytes(InsertProfiles(block, profiles)) && i < |InsertProfiles(block, profiles)|
    requires block != [] && !IsTranscoded(block[0])
    ensures |FrontOnes(profiles)| < |InsertProfiles(block, profiles)|
    ensures InsertProfiles(block, profiles)[|FrontOnes(profiles)|] == block[0]
    ensures RenderOne(c, InsertProfiles(block, profiles), i, hideOriginal, |FrontOnes(profiles)|).place == Hidden
      <==> hideOriginal && i == |FrontOnes(profiles)| && !IsAlbumArt(block[0], i)
  {
    InsertKeepsBlock(block, profiles);
    InsertedAreTranscoded(profiles);
  }

  class CdsItem {
    const id: int
    const location: string
    var resources: seq<Resource>

    constructor (id: int, location: string, resources: seq<Resource>)
      ensures this.id == id && this.location == location && this.resources == resources
    {
      this.id := id;
      this.location := location;
      this.resources := resources;
    }
  }

  /** The part of addResources that changes the item: the thumbnail is appended (its resolution comes from
      resource 0, which the code takes to exist), then every
      applicable profile adds its resource at the front or at the back. */
  method InsertResources(item: CdsItem, thumbnail: Option<Resource>, profiles: seq<Profile>)
    returns (hideOriginal: bool, originalResource: nat)
    requires thumbnail.Some? ==> item.resources != []
    modifies item
    ensures item.resources == InsertProfiles(
              old(item.resources) + (if thumbnail.Some? then [thumbnail.value] else []), profiles)
    ensures originalResource == |FrontOnes(profiles)|
    ensures hideOriginal <==>
            exists p :: 0 <= p < |profiles| && profiles[p].applies && profiles[p].hideOriginal
  {
    if thumbnail.Some? {
      item.resources := item.resources + [thumbnail.value];
    } else {
      assert old(item.resources) + [] == old(item.resources);
    }
    ghost var block := item.resources;
    hideOriginal, originalResource := false, 0;
    var p := 0;
    while p < |profiles|
      invariant 0 <= p <= |profiles|
      invariant InsertProfiles(item.resources, profiles[p..]) == InsertProfiles(block, profiles)
      invariant originalResource + |FrontOnes(profiles[p..])| == |FrontOnes(profiles)|
      invariant hideOriginal <==>
                exists q :: 0 <= q < p && profiles[q].applies && profiles[q].hideOriginal
    {
      assert profiles[p..][1..] == profiles[p + 1..];
      var tp := profiles[p];
      p := p + 1;
      if !tp.applies {
        continue;
      }
      var t := TranscodedResource(tp);
      if tp.hideOriginal {
        hideOriginal := true;
      }
      if tp.first {
        item.resources := [t] + item.resources;
        originalResource := originalResource + 1;
      } else {
        item.resources := item.resources + [t];
      }
    }
  }

  /** One pass of the rendering loop; `realCount` and `isExtThumbnail` are carried along. */
  method RenderNext(c: Context, rs: seq<Resource>, i: nat, hideOriginal: bool, originalResource: nat,
                    realCount: nat, isExtThumbnail: bool)
    returns (rendered: Result<Rendered, string>, realCount': nat, isExtThumbnail': bool)
    requires AllBytes(rs) && i < |rs|
    requires realCount == CountStored(rs[..i]) && (isExtThumbnail <==> ExternalArtUpTo(rs, i))
    ensures rendered.Err? <==> MissingArtUrl(rs[i], i)
    ensures rendered.Ok? ==>
      && rendered.value == RenderOne(c, rs, i, hideOriginal, originalResource)
      && realCount' == realCount + (if IsTranscoded(rs[i]) then 0 else 1)
      && (isExtThumbnail' <==> ExternalArtUpTo(rs, i + 1))
  {
    hide CountStored, EncodePairs, Lookup, RenderExtension, IsAlbumArt;
    realCount', isExtThumbnail' := realCount, isExtThumbnail;
    var r := rs[i];
    var transcoded := IsTranscoded(r);
    var url := c.base;
    if !transcoded {
      url := url + IntToString(realCount);
      realCount' := realCount + 1;
    } else {
      url := url + "none";
    }
    if r.parameters != [] {
      url := url + (['/'] + EncodePairs(r.parameters, '/', '/'));
    }
    assert url == LocalUrl(c.base, NumberText(rs, i), r.parameters);
    if IsExternalArt(r, i) {
      var own := Lookup(r.options, "url");
      if !StringOk(own) {
        return Err("missing thumbnail URL!"), realCount', isExtThumbnail';
      }
      url := own.value;
      isExtThumbnail' := true;
    }
    assert url == BareUrl(c, rs, i);
    if IsAlbumArt(r, i) {
      return Ok(Rendered(url, AsAlbumArt)), realCount', isExtThumbnail';
    }
    if !isExtThumbnail' {
      var ext := RenderExtension(c.contentTypeOf(r), if transcoded then None else Some(c.location));
      assert ext == Extension(c, rs, i);
      if ext.Some? {
        url := url + ext.value;
      }
    }
    assert url == Append(BareUrl(c, rs, i), Extension(c, rs, i));
    var show := !hideOriginal || transcoded || originalResource != i;
    rendered := Ok(Rendered(url, if show then AsResource else Hidden));
  }

  /** The rendering loop. */
  method RenderResources(c: Context, rs: seq<Resource>, hideOriginal: bool, originalResource: nat)
    returns (result: Result<seq<Rendered>, string>)
    requires AllBytes(rs)
    ensures result.Err? <==> exists i :: 0 <= i < |rs| && MissingArtUrl(rs[i], i)
    ensures result.Ok? ==>
              result.value == RenderFirst(c, rs, |rs|, hideOriginal, originalResource)
  {
    hide RenderOne, IsTranscoded, IsExternalArt;
    var realCount := 0;
    var isExtThumbnail := false;
    var out := [];
    var i := 0;
    while i < |rs|
      invariant 0 <= i <= |rs|
      invariant realCount == CountStored(rs[..i])
      invariant isExtThumbnail <==> ExternalArtUpTo(rs, i)
      invariant forall j :: 0 <= j < i ==> !MissingArtUrl(rs[j], j)
      invariant out == RenderFirst(c, rs, i, hideOriginal, originalResource)
    {
      assert rs[..i + 1][..i] == rs[..i];
      var next;
      next, realCount, isExtThumbnail :=
        RenderNext(c, rs, i, hideOriginal, originalResource, realCount, isExtThumbnail);
      if next.Err? {
        return Err(next.error);
      }
      out := out + [next.value];
      i := i + 1;
    }
    return Ok(out);
  }
}
