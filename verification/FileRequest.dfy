/** The handler of media requests (FileRequestHandler): it reads the parameters back out of the URL
    path and decides what to serve. */
module FileRequest {
  import opened Wrappers
  import opened Strings
  import opened Dictionaries
  import opened CdsResource
  import opened ResourceUrls

  /** What the parameters say, after a subtitle extension has been taken into account. */
  datatype Request = Request(objectId: int, resId: int, subtitle: Option<string>,
                             profile: Option<string>, handler: Option<string>)

  datatype Serve =
    | WithHandler(handlerType: int, resId: int)   // a metadata handler makes the content
    | Transcoded(profile: string)
    | PlainFile(path: string)

  /** An object of the database; of an item its file and the handler types of its stored resources. */
  datatype StoredObject =
    | Container
    | StoredItem(location: string, handlers: seq<int>)

  /** The extension, from its last dot on. */
  function FromDot(ext: Option<string>): Option<string> {
    if ext.Some? && RIndexOf(ext.value, '.') > -1 then Some(ext.value[RIndexOf(ext.value, '.')..]) else ext
  }

  predicate SubtitleName(e: string) {
    e == ".srt" || e == ".ssa" || e == ".smi" || e == ".sub"
  }

  predicate IsSubtitle(ext: Option<string>) {
    FromDot(ext).Some? && SubtitleName(FromDot(ext).value)
  }

  /** The extension to look for beside the item's file, when it is that of a subtitle. */
  function SubtitleOf(ext: Option<string>): (s: Option<string>)
    ensures s.Some? <==> IsSubtitle(ext)
  {
    if IsSubtitle(ext) then FromDot(ext) else None
  }

  function ResourceNumber(s: Option<string>): int {
    if StringOk(s) && s != Some("none") then ToInt(s.value) else -1
  }

  /** The parameters of a request, read from the dictionary that the path decodes to. */
  function ReadParameters(dict: Pairs): Result<Request, string> {
    var objId := Lookup(dict, "object_id");
    if objId.None? then Err("object_id not found")
    else
      var srt := IsSubtitle(Lookup(dict, "ext"));
      Ok(Request(ToInt(objId.value),
                 if srt then 0 else ResourceNumber(Lookup(dict, "res_id")),
                 SubtitleOf(Lookup(dict, "ext")),
                 Lookup(dict, "pr_name"),
                 Lookup(dict, "rh")))
  }

  /** The length of the path prefix "/content/media/". */
  const PREFIX_LENGTH := 15

  /** The text behind the prefix that the web server dispatches on. */
  function ParameterText(filename: string): string {
    if PREFIX_LENGTH <= |filename| then filename[PREFIX_LENGTH..] else ""
  }

  function ParseRequest(filename: string): Result<Request, string> {
    ReadParameters(DecodeSimpleOnto([], ParameterText(filename)))
  }

  /** The subtitle file beside the item's own. */
  function SubtitlePath(location: string, ext: string): string {
    var dot := RIndexOf(location, '.');
    (if dot > -1 then location[..dot] else location) + ext
  }

  /** The path without the extension of the file, if there is one. */
  ghost predicate IsStem(stem: string, location: string) {
    || (location == stem && '.' !in stem)
    || exists x :: '.' !in x && location == stem + ("." + x)
  }

  lemma EveryPathHasAStem(location: string) returns (stem: string)
    ensures IsStem(stem, location)
  {
    hide RIndexOf;
    var dot := RIndexOf(location, '.');
    stem := if dot > -1 then location[..dot] else location;
    if dot > -1 {
      assert location == location[..dot] + ("." + location[dot + 1..]);
    } else {
      assert location[dot + 1..] == location;
    }
  }

  /** The subtitle file has the name of the item's file, up to the last dot, and its own extension. */
  lemma SubtitleBesideItem(stem: string, location: string, ext: string)
    requires IsStem(stem, location)
    ensures SubtitlePath(location, ext) == stem + ext
  {
    hide RIndexOf;
    if x :| '.' !in x && location == stem + ("." + x) {
      LastDot(stem, x);
    } else {
      NoDot(location);
    }
  }

  /** The file to look at: the item's, or the subtitle file. */
  function PathOf(r: Request, item: StoredObject): string
    requires item.StoredItem?
  {
    if r.subtitle.None? then item.location else SubtitlePath(item.location, r.subtitle.value)
  }

  /** A profile name and a resource number exclude each other. */
  predicate Consistent(r: Request) {
    if StringOk(r.profile) then r.resId == -1 else r.resId != -1
  }

  function Select(r: Request, item: StoredObject): Serve
    requires item.StoredItem?
  {
    if (0 < r.resId < |item.handlers|) || (r.resId > 0 && StringOk(r.handler)) then
      WithHandler(if StringOk(r.handler) then ToInt(r.handler.value) else item.handlers[r.resId], r.resId)
    else if r.subtitle.None? && StringOk(r.profile) then Transcoded(r.profile.value)
    else PlainFile(PathOf(r, item))
  }

  /** The part that `open` and `get_info` share: finding the object and the file. */
  function FindItem(r: Result<Request, string>, storage: map<int, StoredObject>, readable: string -> bool)
    : (f: Result<(Request, StoredObject), string>)
    ensures f.Ok? ==> f.value.1.StoredItem?
  {
    if r.Err? then Err(r.error)
    else if r.value.objectId !in storage then Err("object not found")
    else
      var item := storage[r.value.objectId];
      if item.Container? then Err("requested object is not an item")
      else if !readable(PathOf(r.value, item)) then
        Err(if r.value.subtitle.Some? then "Subtitle file is not available" else "Failed to open")
      else Ok((r.value, item))
  }

  /** The decision of `open`. */
  function OpenDecision(filename: string, storage: map<int, StoredObject>, readable: string -> bool)
    : Result<Serve, string>
  {
    var f := FindItem(ParseRequest(filename), storage, readable);
    if f.Err? then Err(f.error)
    else if !Consistent(f.value.0) then Err("Invalid resource ID given!")
    else Ok(Select(f.value.0, f.value.1))
  }

  /** The decision of `get_info`: it does not compare the resource number with the profile name, but
      it knows the configured profiles. */
  function InfoDecision(filename: string, storage: map<int, StoredObject>, readable: string -> bool,
                        profiles: set<string>): Result<Serve, string>
  {
    var f := FindItem(ParseRequest(filename), storage, readable);
    if f.Err? then Err(f.error)
    else
      var s := Select(f.value.0, f.value.1);
      if s.Transcoded? && s.profile !in profiles then Err("no profile found") else Ok(s)
  }

  // ---- reading a rendered path ----

  /** The text of a rendered path behind its parameter part: an extension parameter or nothing. */
  function ExtText(key: string, v: Option<string>): string {
    if v.None? then "" else ['/'] + (key + "/" + v.value)
  }

  function Rest(text: string): string {
    if text == "" then "" else text[1..]
  }

  function PutExt(d: Pairs, key: string, v: Option<string>): Pairs {
    if v.None? then d else PutPair(d, key, UrlUnescape(v.value))
  }

  /** What is read of the resource parameters and the extension: an empty name or value ends it. */
  function AfterParams(d: Pairs, params: Pairs, key: string, v: Option<string>): Pairs {
    if AllNonEmpty(params) then PutExt(PutAll(d, params), key, v)
    else PutAll(d, NonEmptyPrefix(params))
  }

  ghost predicate PlainKey(key: string) {
    key != "" && '/' !in key && '%' !in key && '+' !in key
  }

  ghost predicate ExtOk(v: Option<string>) {
    v.Some? ==> v.value != "" && '/' !in v.value
  }

  lemma DecodeExt(d: Pairs, key: string, v: Option<string>)
    requires PlainKey(key) && ExtOk(v)
    ensures DecodeSimpleOnto(d, Rest(ExtText(key, v))) == PutExt(d, key, v)
  {
    if v.Some? {
      UnescapePlain(key);
      assert Rest(ExtText(key, v)) == key + "/" + v.value + "";
      DecodeSimpleStep(d, key, v.value, "");
      assert DecodeSimpleOnto(PutExt(d, key, v), "") == PutExt(d, key, v);
    }
  }

  lemma RestBehind(c: char, text: string, more: string)
    ensures Rest(([c] + text) + more) == text + more
  {
    assert ([c] + text) + more == [c] + (text + more);
  }

  lemma DecodeParams(d: Pairs, params: Pairs, key: string, v: Option<string>)
    requires BytePairs(params) && PlainKey(key) && ExtOk(v)
    ensures DecodeSimpleOnto(d, Rest(ParamText(params) + ExtText(key, v))) ==
            AfterParams(d, params, key, v)
  {
    hide DecodeSimpleOnto, EncodePairs, UrlUnescape, IndexOf, PutPair, PutExt;
    var e := ExtText(key, v);
    if params == [] {
      assert ParamText(params) + e == e;
      DecodeExt(d, key, v);
    } else {
      RestBehind('/', EncodePairs(params, '/', '/'), e);
      DecodeSimpleEncoded(d, params, e);
      DecodeExt(PutAll(d, params), key, v);
    }
  }

  lemma {:induction false} GetPrefix(d: Pairs, key: string)
    ensures Lookup(d, key) == None ==> Lookup(NonEmptyPrefix(d), key) == None
  {
    var e := NonEmptyPrefix(d);
    var n := Find(e, key);
    assert n < |e| ==> d[n] == e[n];
  }

  /** A key that the resource parameters do not use keeps the value it had before them. */
  lemma GetAfterParams(d: Pairs, params: Pairs, key: string, v: Option<string>, q: string)
    requires DistinctKeys(params) && Lookup(params, q) == None && q != key
    ensures Lookup(AfterParams(d, params, key, v), q) == Lookup(d, q)
  {
    var e := NonEmptyPrefix(params);
    assert forall i :: 0 <= i < |e| ==> e[i] == params[i];
    GetPrefix(params, q);
    PutAllGet(d, e, q);
    PutAllGet(d, params, q);
    if v.Some? {
      GetPut(PutAll(d, params), key, UrlUnescape(v.value), q);
    }
  }

  /** The first two parameters of a rendered path, the resource's own, and the extension. */
  lemma DecodePath(k0: string, v0: string, k1: string, v1: string, params: Pairs,
                   key: string, v: Option<string>)
    requires BytePairs([Pair(k0, v0)]) && k0 != "" && v0 != ""
    requires PlainKey(k1) && PlainKey(v1)
    requires BytePairs(params) && PlainKey(key) && ExtOk(v)
    ensures DecodeSimpleOnto([], EncodePairs([Pair(k0, v0)], '/', '/') +
              (['/'] + (k1 + "/" + v1 + (ParamText(params) + ExtText(key, v))))) ==
            AfterParams(PutPair([Pair(k0, v0)], k1, v1), params, key, v)
  {
    hide DecodeSimpleOnto, UrlUnescape, PutPair, AfterParams, NonEmptyPrefix, EncodePairs, IndexOf;
    var d := [Pair(k0, v0)];
    var more := ParamText(params) + ExtText(key, v);
    assert more == "" || more[0] == '/';
    var tail := k1 + "/" + v1 + more;
    DecodeSimpleEncoded([], d, ['/'] + tail);
    assert (['/'] + tail)[1..] == tail;
    assert AllNonEmpty(d);
    PutAllOntoEmpty(d);
    UnescapePlain(k1);
    UnescapePlain(v1);
    DecodeSimpleStep(d, k1, v1, more);
    DecodeParams(PutPair(d, k1, v1), params, key, v);
  }

  // ---- the rendered URLs ----

  /** The text of an extension behind "/ext/". */
  function ExtensionText(ext: Option<string>): Option<string> {
    if ext.Some? && |ext.value| >= 5 then Some(ext.value[5..]) else None
  }

  /** The text behind "/ext/" of an extension that ends with `v`. */
  lemma ExtensionTextOfFile(v: string)
    ensures ExtensionText(Some("/ext/file" + v)) == Some("file" + v)
    ensures "/ext/file" + v == ExtText("ext", Some("file" + v))
  {
    assert "/ext/file" + v == "/ext/" + ("file" + v);
    assert ['/'] + ("ext" + "/" + ("file" + v)) == ['/'] + "ext" + "/" + ("file" + v);
    assert ['/'] + "ext" + "/" == "/ext/";
    Behind("/ext/", "file" + v);
  }

  lemma FileExtensionShape(v: string)
    requires '/' !in v
    ensures var ext := Some("/ext/file" + v);
      ExtOk(ExtensionText(ext)) && Append("", ext) == ExtText("ext", ExtensionText(ext))
  {
    hide ExtensionText, ExtText;
    ExtensionTextOfFile(v);
    NoSlash("file", v);
  }

  lemma NoSlash(u: string, v: string)
    requires '/' !in u && '/' !in v
    ensures '/' !in u + v
  {
  }

  lemma ExtensionShape(contentType: Option<string>, location: Option<string>)
    requires contentType.Some? ==> '/' !in contentType.value
    ensures var ext := RenderExtension(contentType, location);
      ExtOk(ExtensionText(ext)) && Append("", ext) == ExtText("ext", ExtensionText(ext))
  {
    hide ExtOk, ExtensionText, Append, ExtText, RIndexOf;
    if StringOk(contentType) && contentType.value != "playlist" {
      NoSlash(".", contentType.value);
      FileExtensionShape("." + contentType.value);
    } else if RenderExtension(contentType, location).Some? {
      FileExtensionShape(location.value[RIndexOf(location.value, '.')..]);
    } else {
      NoExtension();
    }
  }

  lemma Behind(pre: string, text: string)
    ensures (pre + text)[|pre|..] == text
  {
  }

  /** Cutting a rendered URL down to what the handler decodes. */
  lemma PathShape(server: string, content: string, media: string, enc: string, mid: string,
                  number: string, params: string, ext: string)
    ensures server + content + (media + (enc + mid)) + (number + params) + ext ==
            server + ((content + media) + (enc + (mid + (number + (params + ext)))))
  {
    var t := number + params;
    assert t + ext == number + (params + ext);
    assert media + (enc + mid) + (t + ext) == media + (enc + (mid + (t + ext)));
    assert server + content + (media + (enc + mid)) + t + ext ==
           server + (content + (media + (enc + mid) + (t + ext)));
    assert content + (media + (enc + (mid + (t + ext)))) ==
           (content + media) + (enc + (mid + (t + ext)));
  }

  /** The extension part of a URL is one that RenderExtension makes, or nothing. */
  ghost predicate ExtRendered(ext: Option<string>) {
    ExtOk(ExtensionText(ext)) && Append("", ext) == ExtText("ext", ExtensionText(ext))
  }

  /** The extension that the handler reads. */
  function ReadExtension(params: Pairs, ext: Option<string>): Option<string> {
    var v := ExtensionText(ext);
    if v.None? || !AllNonEmpty(params) then None else Some(UrlUnescape(v.value))
  }

  /** What the web server passes to the handler: the URL behind the server's address. */
  function PathBehind(server: string, url: string): string {
    if |server| <= |url| then url[|server|..] else ""
  }

  lemma BehindUrl(server: string, id: int, number: string, params: Pairs, ext: Option<string>)
    requires BytePairs(params)
    ensures var url := Append(LocalUrl(UrlBase(server + "/content", id), number, params), ext);
      |server| + PREFIX_LENGTH <= |url| && ParameterText(PathBehind(server, url)) ==
        EncodePairs(ObjectDict(id), '/', '/') + ("/res_id/" + (number + (ParamText(params) + Append("", ext))))
  {
    hide EncodePairs, ObjectDict, ParamText;
    var enc, p, e := EncodePairs(ObjectDict(id), '/', '/'), ParamText(params), Append("", ext);
    var url := Append(LocalUrl(UrlBase(server + "/content", id), number, params), ext);
    assert url == server + "/content" + ("/media/" + (enc + "/res_id/")) + (number + p) + e;
    PathShape(server, "/content", "/media/", enc, "/res_id/", number, p, e);
    var text := enc + ("/res_id/" + (number + (p + e)));
    Behind(server, ("/content" + "/media/") + text);
    Behind("/content" + "/media/", text);
  }

  lemma ResIdText(id: string, rest: string)
    requires id == "res_id"
    ensures "/res_id/" + rest == ['/'] + (id + "/" + rest)
  {
  }

  lemma KeysArePlain()
    ensures PlainKey("res_id") && PlainKey("ext")
  {
  }

  /** What the handler's dictionary holds for a rendered URL. */
  lemma DecodeUrlOf(server: string, id: int, number: string, params: Pairs, ext: Option<string>)
    requires BytePairs(params) && ExtRendered(ext) && PlainKey(number)
    ensures var url := Append(LocalUrl(UrlBase(server + "/content", id), number, params), ext);
      |server| + PREFIX_LENGTH <= |url| &&
      DecodeSimpleOnto([], ParameterText(PathBehind(server, url))) ==
        AfterParams(PutPair(ObjectDict(id), "res_id", number), params, "ext", ExtensionText(ext))
  {
    hide EncodePairs, DecodeSimpleOnto, UrlBase, AfterParams, LocalUrl, ParamText, UrlEscape, UrlUnescape, PutPair,
         Append, ExtText, ExtensionText, PathBehind, ParameterText, IntToString, PlainKey, ExtOk;
    BehindUrl(server, id, number, params, ext);
    var k0, v0, k1, key := "object_id", IntToString(id), "res_id", "ext";
    IntToStringIsSafe(id);
    KeysArePlain();
    ResIdText(k1, number + (ParamText(params) + Append("", ext)));
    Reassociate(k1, number, ParamText(params) + Append("", ext));
    DecodePath(k0, v0, k1, number, params, key, ExtensionText(ext));
  }

  lemma Reassociate(k1: string, number: string, more: string)
    ensures k1 + "/" + (number + more) == k1 + "/" + number + more
  {
  }

  /** The handler's parameters for a rendered URL whose resource does not use the reserved names. */
  ghost predicate NoReservedKeys(params: Pairs) {
    Lookup(params, "object_id") == None && Lookup(params, "res_id") == None && Lookup(params, "ext") == None
  }

  lemma KeysDiffer()
    ensures "object_id" != "res_id" && "object_id" != "ext" && "res_id" != "ext"
    ensures "pr_name" != "object_id" && "pr_name" != "res_id" && "pr_name" != "ext"
    ensures "rh" != "object_id" && "rh" != "res_id" && "rh" != "ext"
  {
    assert |"rh"| == 2 && |"res_id"| == 6;
    assert "object_id"[0] == 'o' && "res_id"[0] == 'r' && "ext"[0] == 'e' && "pr_name"[0] == 'p';
  }

  /** The values in the dictionary, for any names of the keys. */
  lemma GetRendered(k0: string, v0: string, k1: string, v1: string, params: Pairs, key: string, v: Option<string>)
    requires k0 != k1 && k0 != key && k1 != key && DistinctKeys(params)
    requires Lookup(params, k0) == None && Lookup(params, k1) == None && Lookup(params, key) == None
    ensures var d := AfterParams(PutPair([Pair(k0, v0)], k1, v1), params, key, v);
      && Lookup(d, k0) == Some(v0)
      && Lookup(d, k1) == Some(v1)
      && Lookup(d, key) == if v.Some? && AllNonEmpty(params) then Some(UrlUnescape(v.value)) else None
  {
    hide AfterParams, UrlUnescape;
    var d0 := [Pair(k0, v0)];
    var d1 := PutPair(d0, k1, v1);
    GetPut(d0, k1, v1, k0);
    GetPut(d0, k1, v1, k1);
    GetPut(d0, k1, v1, key);
    GetAfterParams(d1, params, key, v, k0);
    GetAfterParams(d1, params, key, v, k1);
    GetExt(d1, params, key, v);
  }

  lemma GetExt(d: Pairs, params: Pairs, key: string, v: Option<string>)
    requires DistinctKeys(params) && Lookup(params, key) == None && Lookup(d, key) == None
    ensures Lookup(AfterParams(d, params, key, v), key) ==
            if v.Some? && AllNonEmpty(params) then Some(UrlUnescape(v.value)) else None
  {
    var e := NonEmptyPrefix(params);
    assert forall i :: 0 <= i < |e| ==> e[i] == params[i];
    GetPrefix(params, key);
    PutAllGet(d, e, key);
    PutAllGet(d, params, key);
    if v.Some? {
      GetPut(PutAll(d, params), key, UrlUnescape(v.value), key);
    }
  }

  /** The handler reads back the object, the number and, from the resource's own parameters, the
      profile.  Only a subtitle extension changes the number. */
  lemma RenderedUrlIsRead(server: string, id: int, number: string, params: Pairs, ext: Option<string>)
    requires BytePairs(params) && DistinctKeys(params) && NoReservedKeys(params)
    requires ExtRendered(ext) && PlainKey(number)
    ensures var url := Append(LocalUrl(UrlBase(server + "/content", id), number, params), ext);
      && |server| + PREFIX_LENGTH <= |url|
      && var r := ParseRequest(PathBehind(server, url));
      && r.Ok? && r.value.objectId == id
      && r.value.resId ==
           (if IsSubtitle(ReadExtension(params, ext)) then 0 else ResourceNumber(Some(number)))
      && r.value.subtitle == SubtitleOf(ReadExtension(params, ext))
      && r.value.profile == Lookup(NonEmptyPrefix(params), "pr_name")
      && r.value.handler == Lookup(NonEmptyPrefix(params), "rh")
  {
    hide EncodePairs, DecodeSimpleOnto, UrlBase, AfterParams, LocalUrl, ParamText, UrlEscape, UrlUnescape, PutPair,
         ToInt, IntToString, IsSubtitle, NonEmptyPrefix, Append, Lookup;
    DecodeUrlOf(server, id, number, params, ext);
    KeysDiffer();
    GetRendered("object_id", IntToString(id), "res_id", number, params, "ext", ExtensionText(ext));
    GetProfile("object_id", IntToString(id), "res_id", number, params, "ext", ExtensionText(ext), "pr_name");
    GetProfile("object_id", IntToString(id), "res_id", number, params, "ext", ExtensionText(ext), "rh");
    ToIntOfString(id);
  }

  lemma GetProfile(k0: string, v0: string, k1: string, v1: string, params: Pairs,
                   key: string, v: Option<string>, q: string)
    requires q != k0 && q != k1 && q != key && DistinctKeys(params)
    ensures Lookup(AfterParams(PutPair([Pair(k0, v0)], k1, v1), params, key, v), q) == Lookup(NonEmptyPrefix(params), q)
  {
    var d := PutPair([Pair(k0, v0)], k1, v1);
    var e := NonEmptyPrefix(params);
    GetPut([Pair(k0, v0)], k1, v1, q);
    assert forall i :: 0 <= i < |e| ==> e[i] == params[i];
    PutAllGet(d, e, q);
    NonEmptyPrefixIsAll(params);
    if v.Some? {
      GetPut(PutAll(d, params), key, UrlUnescape(v.value), q);
    }
  }

  // ---- the routing theorems ----

  /** What rendering puts behind resource `i`: nothing, or an extension the handler can read. */
  function ExtensionOf(c: Context, rs: seq<Resource>, i: nat): Option<string>
    requires i < |rs|
  {
    if IsAlbumArt(rs[i], i) then None else ResourceUrls.Extension(c, rs, i)
  }

  /** Content types contain no slash. */
  ghost predicate PlainContentTypes(c: Context) {
    forall r :: c.contentTypeOf(r).Some? ==> '/' !in c.contentTypeOf(r).value
  }

  lemma RenderedShape(c: Context, rs: seq<Resource>, i: nat, hideOriginal: bool, original: nat)
    requires i < |rs| && AllBytes(rs) && PlainContentTypes(c) && !IsExternalArt(rs[i], i)
    ensures ExtRendered(ExtensionOf(c, rs, i))
    ensures RenderOne(c, rs, i, hideOriginal, original).url ==
            Append(LocalUrl(c.base, NumberText(rs, i), rs[i].parameters), ExtensionOf(c, rs, i))
  {
    hide IsAlbumArt, RenderExtension, IsTranscoded, ExternalArtUpTo, NumberText, LocalUrl, ExtOk, ExtText;
    if ExtensionOf(c, rs, i).Some? {
      ExtensionShape(c.contentTypeOf(rs[i]), if IsTranscoded(rs[i]) then None else Some(c.location));
    } else {
      NoExtension();
    }
  }

  lemma NoExtension()
    ensures ExtOk(ExtensionText(None)) && Append("", None) == ExtText("ext", ExtensionText(None))
  {
  }

  /** An item's URL base, its stored resources, an appended thumbnail among them, the profiles that
      apply to it, and one stored resource whose parameters do not use the reserved names. */
  ghost predicate StoredCase(server: string, id: int, c: Context, block: seq<Resource>,
                             profiles: seq<Profile>, k: nat)
  {
    var rs, i := InsertProfiles(block, profiles), |FrontOnes(profiles)| + k;
    && c.base == UrlBase(server + "/content", id) && PlainContentTypes(c)
    && k < |block| && (forall j :: 0 <= j < |block| ==> !IsTranscoded(block[j]))
    && i < |rs| && AllBytes(rs) && DistinctKeys(block[k].parameters)
    && NoReservedKeys(block[k].parameters) && Lookup(block[k].parameters, "pr_name") == None
    && !IsExternalArt(block[k], i)
  }

  ghost function UrlOfStored(c: Context, block: seq<Resource>, profiles: seq<Profile>, k: nat,
                             hideOriginal: bool, original: nat): string
    requires |FrontOnes(profiles)| + k < |InsertProfiles(block, profiles)|
    requires AllBytes(InsertProfiles(block, profiles))
  {
    RenderOne(c, InsertProfiles(block, profiles), |FrontOnes(profiles)| + k, hideOriginal, original).url
  }

  /** The URL of stored resource `k` ends like the name of a subtitle file. */
  ghost predicate EndsAsSubtitle(c: Context, block: seq<Resource>, profiles: seq<Profile>, k: nat)
    requires k < |block| && |FrontOnes(profiles)| + k < |InsertProfiles(block, profiles)|
  {
    IsSubtitle(ReadExtension(block[k].parameters,
                             ExtensionOf(c, InsertProfiles(block, profiles), |FrontOnes(profiles)| + k)))
  }

  /** The extension of the subtitle file that this URL asks for. */
  ghost function SubtitleAsked(c: Context, block: seq<Resource>, profiles: seq<Profile>, k: nat): Option<string>
    requires k < |block| && |FrontOnes(profiles)| + k < |InsertProfiles(block, profiles)|
  {
    SubtitleOf(ReadExtension(block[k].parameters,
                             ExtensionOf(c, InsertProfiles(block, profiles), |FrontOnes(profiles)| + k)))
  }

  /** Whatever transcoded resources were inserted, the URL of stored resource `k` brings the handler
      back to this object and to number `k`: an appended thumbnail counts as resource n. */
  lemma StoredUrlIsRead(server: string, id: int, c: Context, block: seq<Resource>, profiles: seq<Profile>,
                        k: nat, hideOriginal: bool, original: nat)
    requires StoredCase(server, id, c, block, profiles, k)
    ensures var url := UrlOfStored(c, block, profiles, k, hideOriginal, original);
      && |server| + PREFIX_LENGTH <= |url|
      && ParseRequest(PathBehind(server, url)).Ok?
      && var r := ParseRequest(PathBehind(server, url)).value;
      && r.objectId == id && r.profile == None && Consistent(r)
      && r.handler == Lookup(NonEmptyPrefix(block[k].parameters), "rh")
      && r.subtitle == SubtitleAsked(c, block, profiles, k)
      && (r.subtitle.Some? <==> EndsAsSubtitle(c, block, profiles, k))
      && r.resId == (if r.subtitle.Some? then 0 else k)
  {
    hide UrlBase, ReadExtension, LocalUrl, Append, NoReservedKeys, RenderOne, ExtRendered, ExtensionOf,
         PlainContentTypes, Lookup, IsSubtitle, ParseRequest, NumberText, IsTranscoded, IsExternalArt, InsertProfiles,
         FrontOnes, PathBehind, NonEmptyPrefix, BytePairs, DistinctKeys, PlainKey;
    var rs, i := InsertProfiles(block, profiles), |FrontOnes(profiles)| + k;
    var params := block[k].parameters;
    StoredResourceKeepsNumber(block, profiles, k);
    RenderedShape(c, rs, i, hideOriginal, original);
    NumberOfStored(k);
    RenderedUrlIsRead(server, id, IntToString(k), params, ExtensionOf(c, rs, i));
    PrefixHasNo(params, "pr_name");
  }

  /** The simplest item is such a case: one resource without parameters, no profiles, a location without
      a dot. */
  lemma PlainItem(server: string, id: int, location: string, r: Resource)
    requires '.' !in location && r.parameters == []
    ensures var c := Context(UrlBase(server + "/content", id), location, _ => None);
      StoredCase(server, id, c, [r], [], 0) && !EndsAsSubtitle(c, [r], [], 0)
  {
    hide UrlBase, IsSubtitle, ExtensionOf, IsTranscoded;
    var c := Context(UrlBase(server + "/content", id), location, _ => None);
    assert FrontOnes([]) == [] && InsertProfiles([r], []) == [r];
    NoParametersNoProfile(r);
    PlainItemHasNoExtension(c, r);
    NoSubtitle();
  }

  lemma NoParametersNoProfile(r: Resource)
    requires r.parameters == []
    ensures !IsTranscoded(r)
  {
  }

  lemma PlainItemHasNoExtension(c: Context, r: Resource)
    requires c.contentTypeOf(r) == None && '.' !in c.location && !IsTranscoded(r)
    ensures ExtensionOf(c, [r], 0) == None
  {
    hide RenderExtension, IsAlbumArt, ExternalArtUpTo, RIndexOf;
    NoDot(c.location);
    NoDotNoExtension(c.location);
  }

  lemma NoDot(location: string)
    requires '.' !in location
    ensures RIndexOf(location, '.') == -1
  {
  }

  lemma NoDotNoExtension(location: string)
    requires RIndexOf(location, '.') == -1
    ensures RenderExtension(None, Some(location)) == None
  {
    hide RIndexOf;
  }

  lemma NoSubtitle()
    ensures !IsSubtitle(None)
  {
  }

  lemma PrefixHasNo(params: Pairs, key: string)
    requires Lookup(params, key) == None
    ensures Lookup(NonEmptyPrefix(params), key) == None
  {
    GetPrefix(params, key);
  }

  lemma NumberOfStored(k: nat)
    ensures PlainKey(IntToString(k)) && ResourceNumber(Some(IntToString(k))) == k
  {
    hide ToInt;
    IntToStringIsSafe(k);
    ToIntOfString(k);
    assert "none"[0] == 'n';
    assert forall c :: c in IntToString(k) ==> c != 'n';
    assert 'n' in "none";
  }

  lemma TranscodedParameters(p: Profile)
    requires IsBytes(p.name)
    ensures var params := TranscodedResource(p).parameters;
      && BytePairs(params) && DistinctKeys(params) && NoReservedKeys(params)
      && Lookup(NonEmptyPrefix(params), "pr_name") == (if p.name == "" then None else Some(p.name))
      && IsTranscoded(TranscodedResource(p))
  {
    var params := TranscodedResource(p).parameters;
    KeysDiffer();
    assert "pr_name"[0] == 'p' && "tr"[0] == 't' && "object_id"[0] == 'o' && "res_id"[0] == 'r' && "ext"[0] == 'e';
    assert params[0] == Pair("pr_name", p.name) && params[1] == Pair("tr", "1");
    FindPrefix(params, "tr", 1);
    if p.name != "" {
      assert NonEmptyPrefix(params)[0] == params[0];
      FindPrefix(NonEmptyPrefix(params), "pr_name", 0);
    }
    forall q | q == "object_id" || q == "res_id" || q == "ext"
      ensures Lookup(params, q) == None
    {
      var n := Find(params, q);
    }
  }

  lemma NoneIsPlain()
    ensures PlainKey("none") && ResourceNumber(Some("none")) == -1
  {
  }

  /** The URL of a transcoded resource brings the handler to the profile's name and to no resource
      number; and it is accepted exactly when the profile has a name and the extension is not that of
      a subtitle. */
  lemma TranscodedUrlIsRead(server: string, id: int, c: Context, rs: seq<Resource>, i: nat, p: Profile,
                            hideOriginal: bool, original: nat)
    requires c.base == UrlBase(server + "/content", id) && PlainContentTypes(c)
    requires i < |rs| && rs[i] == TranscodedResource(p) && IsBytes(p.name) && AllBytes(rs)
    ensures var url := RenderOne(c, rs, i, hideOriginal, original).url;
      && |server| + PREFIX_LENGTH <= |url|
      && var r := ParseRequest(PathBehind(server, url));
      && var ext := ReadExtension(rs[i].parameters, ExtensionOf(c, rs, i));
      && r.Ok? && r.value.objectId == id
      && r.value.profile == (if p.name == "" then None else Some(p.name))
      && r.value.resId == (if IsSubtitle(ext) then 0 else -1) && r.value.subtitle == SubtitleOf(ext)
      && (Consistent(r.value) <==> p.name != "" && !IsSubtitle(ext))
  {
    assert !IsExternalArt(rs[i], i);
    assert rs[i].parameters == TranscodedResource(p).parameters;
    TranscodedParameters(p);
    hide UrlBase, ReadExtension, LocalUrl, Append, NoReservedKeys, RenderOne, ExtRendered, ExtensionOf,
         PlainContentTypes, Lookup, IsSubtitle, ParseRequest, IsTranscoded, IsExternalArt, PlainKey, NonEmptyPrefix,
         TranscodedResource, ResourceNumber;
    RenderedShape(c, rs, i, hideOriginal, original);
    NoneIsPlain();
    RenderedUrlIsRead(server, id, "none", rs[i].parameters, ExtensionOf(c, rs, i));
    NoNameNoSubtitle(p, ExtensionOf(c, rs, i));
  }

  /** What both methods serve under the URL of a transcoded resource: `open` the profile, and `get_info`
      the same profile if it is configured.  The parser of the configuration admits no profile without a
      name; the handler would refuse its URL. */
  lemma TranscodedUrlIsServed(server: string, id: int, c: Context, rs: seq<Resource>, i: nat, p: Profile,
                              hideOriginal: bool, original: nat, storage: map<int, StoredObject>,
                              readable: string -> bool, profiles: set<string>)
    requires c.base == UrlBase(server + "/content", id) && PlainContentTypes(c)
    requires i < |rs| && rs[i] == TranscodedResource(p) && IsBytes(p.name) && AllBytes(rs)
    requires !IsSubtitle(ReadExtension(rs[i].parameters, ExtensionOf(c, rs, i)))
    requires id in storage && storage[id].StoredItem? && readable(storage[id].location)
    ensures var path := PathBehind(server, RenderOne(c, rs, i, hideOriginal, original).url);
      && OpenDecision(path, storage, readable) ==
           (if p.name == "" then Err("Invalid resource ID given!") else Ok(Transcoded(p.name)))
      && InfoDecision(path, storage, readable, profiles) ==
           if p.name == "" then Ok(PlainFile(storage[id].location))
           else if p.name in profiles then Ok(Transcoded(p.name)) else Err("no profile found")
  {
    hide UrlBase, ReadExtension, RenderOne, ExtensionOf, PlainContentTypes, IsSubtitle, ReadParameters,
         DecodeSimpleOnto, PathBehind, AllBytes, TranscodedResource, ToInt, SubtitlePath;
    TranscodedUrlIsRead(server, id, c, rs, i, p, hideOriginal, original);
    var path := PathBehind(server, RenderOne(c, rs, i, hideOriginal, original).url);
    var r := ParseRequest(path).value;
    assert r.subtitle == None && r.resId == -1;
  }

  /** Unless the mime type of the profile is mapped to a content type that names a subtitle: then the
      handler puts 0 in the place of the number, so that `open` always refuses the URL, and `get_info`
      describes the subtitle file beside the item's own. */
  lemma SubtitleTypeIsRefused(server: string, id: int, c: Context, rs: seq<Resource>, i: nat, p: Profile,
                              hideOriginal: bool, original: nat, storage: map<int, StoredObject>,
                              readable: string -> bool, profiles: set<string>, t: string, stem: string)
    requires c.base == UrlBase(server + "/content", id) && PlainContentTypes(c)
    requires i < |rs| && rs[i] == TranscodedResource(p) && IsBytes(p.name) && p.name != "" && AllBytes(rs)
    requires !ExternalArtUpTo(rs, i + 1)
    requires t in {"srt", "ssa", "smi", "sub"} && c.contentTypeOf(rs[i]) == Some(t)
    requires id in storage && storage[id].StoredItem? && IsStem(stem, storage[id].location)
    ensures var path := PathBehind(server, RenderOne(c, rs, i, hideOriginal, original).url);
      var subtitle := stem + ("." + t);
      && OpenDecision(path, storage, readable) ==
           Err(if readable(subtitle) then "Invalid resource ID given!" else "Subtitle file is not available")
      && InfoDecision(path, storage, readable, profiles) ==
           if readable(subtitle) then Ok(PlainFile(subtitle)) else Err("Subtitle file is not available")
  {
    hide UrlBase, ReadExtension, RenderOne, ExtensionOf, PlainContentTypes, IsSubtitle, ReadParameters, IsStem,
         DecodeSimpleOnto, PathBehind, AllBytes, TranscodedResource, ToInt, SubtitlePath, ExternalArtUpTo;
    NamedProfile(p);
    SubtitleTypeIsRead(c, rs, i, t);
    SubtitleBesideItem(stem, storage[id].location, "." + t);
    TranscodedUrlIsRead(server, id, c, rs, i, p, hideOriginal, original);
    var path := PathBehind(server, RenderOne(c, rs, i, hideOriginal, original).url);
    var r := ParseRequest(path).value;
    assert r.subtitle == Some("." + t) && r.resId == 0;
  }

  lemma NamedProfile(p: Profile)
    requires p.name != ""
    ensures AllNonEmpty(TranscodedResource(p).parameters) && forall i :: !IsAlbumArt(TranscodedResource(p), i)
  {
  }

  lemma SubtitleTypeIsRead(c: Context, rs: seq<Resource>, i: nat, t: string)
    requires i < |rs| && AllNonEmpty(rs[i].parameters) && !IsAlbumArt(rs[i], i) && !ExternalArtUpTo(rs, i + 1)
    requires t in {"srt", "ssa", "smi", "sub"} && c.contentTypeOf(rs[i]) == Some(t)
    ensures SubtitleOf(ReadExtension(rs[i].parameters, ExtensionOf(c, rs, i))) == Some("." + t)
  {
    hide ExternalArtUpTo, RIndexOf, IsTranscoded, IsAlbumArt, AllNonEmpty;
    assert ExtensionOf(c, rs, i) == Some("/ext/file" + ("." + t));
    ExtensionTextOfFile("." + t);
    SubtitleFileName(t);
  }

  /** Under the URL of a stored resource that ends as a subtitle both methods serve the file with the name of
      the item's file, up to the last dot, and the extension of the URL. */
  lemma SubtitleUrlIsServed(server: string, id: int, c: Context, block: seq<Resource>, pr: seq<Profile>, k: nat,
                            hideOriginal: bool, original: nat, storage: map<int, StoredObject>,
                            readable: string -> bool, profiles: set<string>, stem: string)
    requires StoredCase(server, id, c, block, pr, k) && SubtitleAsked(c, block, pr, k).Some?
    requires id in storage && storage[id].StoredItem? && IsStem(stem, storage[id].location)
    ensures var path := PathBehind(server, UrlOfStored(c, block, pr, k, hideOriginal, original));
      var subtitle := stem + SubtitleAsked(c, block, pr, k).value;
      && OpenDecision(path, storage, readable) ==
           (if readable(subtitle) then Ok(PlainFile(subtitle)) else Err("Subtitle file is not available"))
      && InfoDecision(path, storage, readable, profiles) == OpenDecision(path, storage, readable)
  {
    hide UrlBase, NoReservedKeys, UrlOfStored, EndsAsSubtitle, PlainContentTypes, Lookup, IsTranscoded, IsExternalArt,
         InsertProfiles, FrontOnes, ToInt, PathBehind, NonEmptyPrefix, ReadParameters, DecodeSimpleOnto, DistinctKeys,
         AllBytes, IsStem, SubtitlePath, SubtitleAsked;
    StoredUrlIsRead(server, id, c, block, pr, k, hideOriginal, original);
    var r := ParseRequest(PathBehind(server, UrlOfStored(c, block, pr, k, hideOriginal, original))).value;
    SubtitleBesideItem(stem, storage[id].location, r.subtitle.value);
    assert !StringOk(r.profile) && r.resId == 0;
  }

  /** Such a URL is rendered for every content type that names a subtitle. */
  lemma SubtitleIsAsked(server: string, id: int, c: Context, block: seq<Resource>, pr: seq<Profile>, k: nat,
                        t: string)
    requires StoredCase(server, id, c, block, pr, k) && AllNonEmpty(block[k].parameters)
    requires t in {"srt", "ssa", "smi", "sub"} && c.contentTypeOf(block[k]) == Some(t)
    requires var rs, i := InsertProfiles(block, pr), |FrontOnes(pr)| + k;
      !IsAlbumArt(block[k], i) && !ExternalArtUpTo(rs, i + 1)
    ensures SubtitleAsked(c, block, pr, k) == Some("." + t)
  {
    hide IsTranscoded, IsExternalArt, InsertProfiles, FrontOnes, ExternalArtUpTo, NoReservedKeys, PlainContentTypes,
         UrlBase, AllBytes, DistinctKeys, ExtensionOf, ReadExtension;
    StoredResourceKeepsNumber(block, pr, k);
    SubtitleTypeIsRead(c, InsertProfiles(block, pr), |FrontOnes(pr)| + k, t);
  }

  lemma SubtitleFileName(t: string)
    requires t in {"srt", "ssa", "smi", "sub"}
    ensures UrlUnescape("file" + ("." + t)) == "file" + ("." + t)
    ensures SubtitleOf(Some("file" + ("." + t))) == Some("." + t)
  {
    hide UrlUnescape, RIndexOf, SubtitleName;
    NoSuchIn(t);
    UnescapePlain("file" + ("." + t));
    LastDot("file", t);
    SubtitleNames(t);
  }

  lemma NoSuchIn(t: string)
    requires t in {"srt", "ssa", "smi", "sub"}
    ensures '.' !in t && '%' !in t && '+' !in t
    ensures '%' !in "file" + ("." + t) && '+' !in "file" + ("." + t)
  {
  }

  lemma SubtitleNames(t: string)
    requires t in {"srt", "ssa", "smi", "sub"}
    ensures SubtitleName("." + t)
  {
  }

  lemma LastDot(u: string, t: string)
    requires '.' !in t
    ensures RIndexOf(u + ("." + t), '.') == |u| && (u + ("." + t))[|u|..] == "." + t
  {
    hide RIndexOf;
    var s := u + ("." + t);
    assert s[|u|] == '.' && s[|u| + 1..] == t;
    RIndexUnique(s, '.', |u|);
  }

  lemma {:induction false} RIndexUnique(s: string, c: char, n: nat)
    requires n < |s| && s[n] == c && c !in s[n + 1..]
    ensures RIndexOf(s, c) == n
  {
    assert n < |s| - 1 ==> s[n + 1..][|s| - 2 - n] == s[|s| - 1];
    if s[|s| - 1] != c {
      var r := s[..|s| - 1];
      assert r[n + 1..] == s[n + 1..][..|s| - 2 - n];
      RIndexUnique(r, c, n);
    }
  }

  lemma NoNameNoSubtitle(p: Profile, ext: Option<string>)
    ensures p.name == "" ==> !IsSubtitle(ReadExtension(TranscodedResource(p).parameters, ext))
  {
    if p.name == "" {
      assert TranscodedResource(p).parameters[0].value == "";
      assert ReadExtension(TranscodedResource(p).parameters, ext) == None;
    }
  }

  /** What `open` serves under the URL of stored resource `k`: never the refusal for a bad resource
      number, for 0 the file, and otherwise the content of that resource's handler. */
  lemma StoredUrlIsServed(server: string, id: int, c: Context, block: seq<Resource>, profiles: seq<Profile>,
                          k: nat, hideOriginal: bool, original: nat,
                          storage: map<int, StoredObject>, readable: string -> bool)
    requires StoredCase(server, id, c, block, profiles, k) && !EndsAsSubtitle(c, block, profiles, k)
    requires id in storage && storage[id].StoredItem?
    ensures var url := UrlOfStored(c, block, profiles, k, hideOriginal, original);
      var item, rh := storage[id], Lookup(NonEmptyPrefix(block[k].parameters), "rh");
      OpenDecision(PathBehind(server, url), storage, readable) ==
        if !readable(item.location) then Err("Failed to open")
        else if k == 0 then Ok(PlainFile(item.location))
        else if StringOk(rh) then Ok(WithHandler(ToInt(rh.value), k))
        else if k < |item.handlers| then Ok(WithHandler(item.handlers[k], k))
        else Ok(PlainFile(item.location))
  {
    hide UrlBase, NoReservedKeys, UrlOfStored, EndsAsSubtitle, PlainContentTypes, Lookup, IsTranscoded, IsExternalArt,
         InsertProfiles, FrontOnes, ToInt, PathBehind, NonEmptyPrefix, ReadParameters, DecodeSimpleOnto, DistinctKeys,
         AllBytes;
    StoredUrlIsRead(server, id, c, block, profiles, k, hideOriginal, original);
    var url := UrlOfStored(c, block, profiles, k, hideOriginal, original);
    var r := ParseRequest(PathBehind(server, url)).value;
    assert !StringOk(r.profile) && r.subtitle == None && r.resId == k;
  }

  /** The thumbnail that is appended while rendering is not in the database; its handler comes back
      from the URL.  It is appended only to an item that has a stored resource. */
  lemma ThumbnailUrlIsServed(server: string, id: int, c: Context, stored: seq<Resource>, attributes: Pairs,
                             profiles: seq<Profile>, hideOriginal: bool, original: nat,
                             storage: map<int, StoredObject>, readable: string -> bool)
    requires stored != []
    requires var block := stored + [ThumbnailResource(attributes)];
      && |FrontOnes(profiles)| + |stored| < |InsertProfiles(block, profiles)|
      && AllBytes(InsertProfiles(block, profiles))
      && !EndsAsSubtitle(c, block, profiles, |stored|)
    requires c.base == UrlBase(server + "/content", id) && PlainContentTypes(c)
    requires forall j :: 0 <= j < |stored| ==> !IsTranscoded(stored[j])
    requires id in storage && storage[id].StoredItem? && readable(storage[id].location)
    ensures var block := stored + [ThumbnailResource(attributes)];
      OpenDecision(PathBehind(server, UrlOfStored(c, block, profiles, |stored|, hideOriginal, original)),
                   storage, readable) ==
        Ok(WithHandler(CH_FFTH, |stored|))
  {
    hide UrlBase, NoReservedKeys, UrlOfStored, EndsAsSubtitle, PlainContentTypes, Lookup, IsTranscoded,
         InsertProfiles, FrontOnes, ToInt, PathBehind, NonEmptyPrefix, OpenDecision, DistinctKeys, AllBytes,
         IntToString;
    var block := stored + [ThumbnailResource(attributes)];
    ThumbnailParameters(attributes);
    ToIntOfString(CH_FFTH);
    assert block[|stored|] == ThumbnailResource(attributes);
    StoredUrlIsServed(server, id, c, block, profiles, |stored|, hideOriginal, original, storage, readable);
  }

  lemma ThumbnailParameters(attributes: Pairs)
    ensures var t := ThumbnailResource(attributes);
      && DistinctKeys(t.parameters) && NoReservedKeys(t.parameters) && Lookup(t.parameters, "pr_name") == None
      && Lookup(NonEmptyPrefix(t.parameters), "rh") == Some(IntToString(CH_FFTH)) && IntToString(CH_FFTH) != ""
      && !IsTranscoded(t)
  {
    var params := ThumbnailResource(attributes).parameters;
    IntToStringIsSafe(CH_FFTH);
    KeysDiffer();
    assert "rh"[0] == 'r' && "tr"[0] == 't' && "pr_name"[0] == 'p';
    assert params[0] == Pair("rh", IntToString(CH_FFTH));
    assert NonEmptyPrefix(params)[0] == params[0];
    FindPrefix(NonEmptyPrefix(params), "rh", 0);
    forall q | q != "rh"
      ensures Lookup(params, q) == None
    {
      var n := Find(params, q);
    }
  }

  /** `get_info` and `open` take the same branch whenever `open` accepts the request and its profile is
      configured; and where only `get_info` accepts, number and profile name contradict each other. */
  lemma InfoAgreesWithOpen(filename: string, storage: map<int, StoredObject>, readable: string -> bool,
                           profiles: set<string>)
    requires PREFIX_LENGTH <= |filename|
    ensures var open, info := OpenDecision(filename, storage, readable),
                              InfoDecision(filename, storage, readable, profiles);
      && (open.Ok? && (open.value.Transcoded? ==> open.value.profile in profiles) ==> info == open)
      && (info.Ok? ==> (open.Ok? <==> Consistent(ParseRequest(filename).value)))
  {
    hide DecodeSimpleOnto, Lookup, IsSubtitle;
  }

  // ---- the handler's methods ----

  /** The extension cut at its last dot; one of the four subtitle extensions redirects the request to
      the file beside the item's and resets the resource number. */
  method ApplyExtension(given: Option<string>, location: string, number: int)
    returns (path: string, resId: int, isSrt: bool)
    ensures isSrt <==> IsSubtitle(given)
    ensures resId == if isSrt then 0 else number
    ensures isSrt ==> FromDot(given).Some? && path == SubtitlePath(location, FromDot(given).value)
    ensures !isSrt ==> path == location
  {
    hide SubtitleName;
    path, resId, isSrt := location, number, false;
    var ext := given;
    if ext.Some? && RIndexOf(ext.value, '.') > -1 {
      ext := Some(ext.value[RIndexOf(ext.value, '.')..]);
    }
    if ext.Some? && SubtitleName(ext.value) {
      var dot := RIndexOf(path, '.');
      if dot > -1 {
        path := path[..dot];
      }
      path := path + ext.value;
      resId := 0;
      isSrt := true;
    }
  }

  /** What `open` and `get_info` do before they stat the file. */
  method Locate(filename: string, storage: map<int, StoredObject>)
    returns (err: Option<string>, item: StoredObject, dict: Pairs, resId: int, path: string, isSrt: bool)
    requires PREFIX_LENGTH <= |filename|
    ensures dict == DecodeSimpleOnto([], filename[PREFIX_LENGTH..])
    ensures var r := ParseRequest(filename);
      && (r.Err? ==> err == Some(r.error))
      && (r.Ok? && r.value.objectId !in storage ==> err == Some("object not found"))
      && (r.Ok? && r.value.objectId in storage ==>
           && (storage[r.value.objectId].Container? ==> err == Some("requested object is not an item"))
           && (storage[r.value.objectId].StoredItem? ==>
                && err == None && item == storage[r.value.objectId] && resId == r.value.resId
                && path == PathOf(r.value, item) && (isSrt <==> r.value.subtitle.Some?)))
  {
    hide DecodeSimpleOnto, Lookup, IsSubtitle, ToInt, FromDot, SubtitlePath;
    item, resId, path, isSrt := Container, 0, "", false;
    var d := new Dictionary();
    d.DecodeSimple(filename[PREFIX_LENGTH..]);
    dict := d.elements;
    var objId := Lookup(dict, "object_id");
    if objId.None? {
      return Some("object_id not found"), item, dict, resId, path, isSrt;
    }
    var objectId := ToInt(objId.value);
    if objectId !in storage {
      return Some("object not found"), item, dict, resId, path, isSrt;
    }
    item := storage[objectId];
    if item.Container? {
      return Some("requested object is not an item"), item, dict, resId, path, isSrt;
    }
    var number := Lookup(dict, "res_id");
    if StringOk(number) && number.value != "none" {
      resId := ToInt(number.value);
    } else {
      resId := -1;
    }
    path, resId, isSrt := ApplyExtension(Lookup(dict, "ext"), item.location, resId);
    err := None;
  }

  method Open(filename: string, storage: map<int, StoredObject>, readable: string -> bool)
    returns (served: Result<Serve, string>)
    requires PREFIX_LENGTH <= |filename|
    ensures served == OpenDecision(filename, storage, readable)
  {
    hide DecodeSimpleOnto, Lookup, PathOf, IsSubtitle, ToInt, FromDot, ResourceNumber;
    var err, item, dict, resId, path, isSrt := Locate(filename, storage);
    if err.Some? {
      return Err(err.value);
    }
    if !readable(path) {
      return Err(if isSrt then "Subtitle file is not available" else "Failed to open");
    }
    var profile := Lookup(dict, "pr_name");
    if StringOk(profile) {
      if resId != -1 {
        return Err("Invalid resource ID given!");
      }
    } else if resId == -1 {
      return Err("Invalid resource ID given!");
    }
    var rh := Lookup(dict, "rh");
    if (resId > 0 && resId < |item.handlers|) || (resId > 0 && StringOk(rh)) {
      var handler;
      if StringOk(rh) {
        handler := ToInt(rh.value);
      } else {
        handler := item.handlers[resId];
      }
      served := Ok(WithHandler(handler, resId));
    } else if !isSrt && StringOk(profile) {
      served := Ok(Transcoded(profile.value));
    } else {
      served := Ok(PlainFile(path));
    }
  }

  method GetInfo(filename: string, storage: map<int, StoredObject>, readable: string -> bool,
                 profiles: set<string>)
    returns (served: Result<Serve, string>)
    requires PREFIX_LENGTH <= |filename|
    ensures served == InfoDecision(filename, storage, readable, profiles)
  {
    hide DecodeSimpleOnto, Lookup, PathOf, IsSubtitle, ToInt, FromDot, ResourceNumber;
    var err, item, dict, resId, path, isSrt := Locate(filename, storage);
    if err.Some? {
      return Err(err.value);
    }
    if !readable(path) {
      return Err(if isSrt then "Subtitle file is not available" else "Failed to open");
    }
    var profile := Lookup(dict, "pr_name");
    var rh := Lookup(dict, "rh");
    if (resId > 0 && resId < |item.handlers|) || (resId > 0 && StringOk(rh)) {
      var handler;
      if StringOk(rh) {
        handler := ToInt(rh.value);
      } else {
        handler := item.handlers[resId];
      }
      served := Ok(WithHandler(handler, resId));
    } else if !isSrt && StringOk(profile) {
      if profile.value !in profiles {
        return Err("no profile found");
      }
      served := Ok(Transcoded(profile.value));
    } else {
      served := Ok(PlainFile(path));
    }
  }
}
