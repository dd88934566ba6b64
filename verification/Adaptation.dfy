/**
  Content adaptation: modify_msg, which rewrites a message so that a handset with a given profile can
  show it. Content types are kept apart from their parameters.
 */
module Adaptation {
  import opened Wrappers
  import opened Text
  import opened Envelopes
  import opened HeaderLists

  datatype Item = Item(ctype: string, params: seq<Header>, cid: Option<string>, parts: seq<Item>, body: string)

  /** The part of a user agent profile that counts here. */
  datatype Profile = Profile(all: bool, presentation: bool, content: seq<string>, charsets: seq<string>, maxX: int, maxY: int)

  /** A row of the table of formats that can be converted; all rows have both commands. */
  datatype Format = Format(ctype: string, ext: string, multi: bool, image: bool)

  datatype Dim = Dim(x: int, y: int)

  datatype Job =
    | Scale(ext: string)
    | ConvertImage(from: string, to: string, first: bool, scaled: bool)
    | ConvertAudio(from: string, to: string)

  /** Where an item is in the tree. */
  type Path = seq<nat>

  /** The programs that are called, by the item they are called for: they may fail, and give anything. */
  datatype Tools = Tools(
    measure: (Path, string) -> Option<Dim>,
    convert: (Path, Job, string) -> Option<string>,
    recode: (Path, string, string, string) -> Option<string>)

  datatype Env = Env(profile: Profile, formats: seq<Format>, tools: Tools, defaultCharset: string)

  datatype Media = Image | Audio | TextMedia | Other

  function MediaOf(ctype: string): Media {
    if SearchNoCase(ctype, "image/") == 0 then Image
    else if SearchNoCase(ctype, "audio/") == 0 then Audio
    else if SearchNoCase(ctype, "text/") == 0 then TextMedia
    else Other
  }

  predicate Among(l: seq<string>, s: string) {
    exists i :: 0 <= i < |l| && EqNoCase(l[i], s)
  }

  predicate Accepts(p: Profile, ctype: string) {
    p.all || Among(p.content, ctype)
  }

  // ---- formats ----

  /** The row of the table for a content type, or -1. */
  function RowOf(formats: seq<Format>, ctype: string, k: nat): (i: int)
    requires k <= |formats|
    ensures i == -1 || k <= i < |formats|
    decreases |formats| - k
  {
    if k == |formats| then -1 else if EqNoCase(ctype, formats[k].ctype) then k else RowOf(formats, ctype, k + 1)
  }

  /** The first row of the same medium that the handset lists, or -1. */
  function TargetRow(formats: seq<Format>, image: bool, content: seq<string>, k: nat): (i: int)
    requires k <= |formats|
    ensures i == -1 || (k <= i < |formats| && formats[i].image == image && Among(content, formats[i].ctype))
    decreases |formats| - k
  {
    if k == |formats| then -1
    else if formats[k].image == image && Among(content, formats[k].ctype) then k
    else TargetRow(formats, image, content, k + 1)
  }

  // ---- leaves ----

  datatype Outcome = Outcome(item: Item, supported: bool)

  /** mknewname: the old name with the new extension. */
  function NewName(name: string, ext: string): string {
    var i := IndexOf(name, '.');
    if i < 0 then name + "." + ext else name[..i + 1] + ext
  }

  /** replace_body. */
  function Replaced(x: Item, body: string, f: Format): Item {
    var name := HeaderValue(x.params, "name");
    var params := match name case None => x.params case Some(n) => Without(x.params, "name") + [Header("name", NewName(n, f.ext))];
    x.(ctype := f.ctype, params := params, body := body)
  }

  /** remove_object. */
  function Removed(x: Item): Item {
    x.(ctype := "text/plain", params := [], parts := [], body := "Unsupported object (content type " + x.ctype + ") removed")
  }

  function KeptOrRemoved(x: Item, supported: bool): Outcome {
    Outcome(if supported then x else Removed(x), supported)
  }

  function CharsetOf(env: Env, params: seq<Header>): string {
    match HeaderValue(params, "charset")
    case None => env.defaultCharset
    case Some(c) => if c == "unknown" then env.defaultCharset else c
  }

  /** The first charset of the handset, from the `k`th on, that the text can be converted to. */
  function Recoded(env: Env, path: Path, x: Item, k: nat): Item
    requires k <= |env.profile.charsets|
    decreases |env.profile.charsets| - k
  {
    if k == |env.profile.charsets| then x
    else
      var to := env.profile.charsets[k];
      match env.tools.recode(path, x.body, CharsetOf(env, x.params), to)
      case None => Recoded(env, path, x, k + 1)
      case Some(body) => x.(params := Without(x.params, "charset") + [Header("charset", to)], body := body)
  }

  function ModifyText(env: Env, path: Path, x: Item): Item {
    if Among(env.profile.charsets, CharsetOf(env, x.params)) then x else Recoded(env, path, x, 0)
  }

  function ImageJob(i: Format, o: Format, supported: bool, big: bool): Job {
    if supported then Scale(i.ext) else ConvertImage(i.ext, o.ext, i.multi && !o.multi, big)
  }

  /** An image is scaled if it is too large, and converted if it is not accepted. */
  function ModifyImage(env: Env, path: Path, x: Item): Outcome {
    var p := env.profile;
    var supported := Accepts(p, x.ctype);
    var i, o := RowOf(env.formats, x.ctype, 0), TargetRow(env.formats, true, p.content, 0);
    if i < 0 || o < 0 then KeptOrRemoved(x, supported)
    else
      match env.tools.measure(path, x.body)
      case None => KeptOrRemoved(x, supported)
      case Some(d) =>
        var big := d.x > p.maxX || d.y > p.maxY;
        if supported && !big then Outcome(x, true)
        else
          match env.tools.convert(path, ImageJob(env.formats[i], env.formats[o], supported, big), x.body)
          case None => KeptOrRemoved(x, supported)
          case Some(body) => Outcome(Replaced(x, body, env.formats[if supported then i else o]), true)
  }

  function ModifyAudio(env: Env, path: Path, x: Item): Outcome {
    if Accepts(env.profile, x.ctype) then Outcome(x, true)
    else
      var i, o := RowOf(env.formats, x.ctype, 0), TargetRow(env.formats, false, env.profile.content, 0);
      if i < 0 || o < 0 then KeptOrRemoved(x, false)
      else
        match env.tools.convert(path, ConvertAudio(env.formats[i].ctype, env.formats[o].ctype), x.body)
        case None => KeptOrRemoved(x, false)
        case Some(body) => Outcome(Replaced(x, body, env.formats[o]), true)
  }

  function ModifyLeaf(env: Env, path: Path, x: Item): Outcome {
    match MediaOf(x.ctype)
    case TextMedia => Outcome(ModifyText(env, path, x), true)
    case Other => KeptOrRemoved(x, Accepts(env.profile, x.ctype))
    case Audio => ModifyAudio(env, path, x)
    case Image => ModifyImage(env, path, x)
  }

  // ---- trees ----

  /** The part that the start parameter names came out unsupported. */
  predicate StartLost(start: Option<string>, parts: seq<Item>, outs: seq<Outcome>)
    requires |parts| == |outs|
  {
    start.Some? && exists i :: 0 <= i < |parts| && !outs[i].supported && parts[i].cid == start
  }

  function ItemsOf(outs: seq<Outcome>): seq<Item> {
    if outs == [] then [] else [outs[0].item] + ItemsOf(outs[1..])
  }

  /** No presentation is left to start with. */
  predicate TurnsMixed(env: Env, x: Item, outs: seq<Outcome>)
    requires |x.parts| == |outs|
  {
    var start := HeaderValue(x.params, "start");
    || StartLost(start, x.parts, outs)
    || (start.None? && EqNoCase(x.ctype, "multipart/related"))
    || !(env.profile.presentation || env.profile.all)
  }

  function Mixed(x: Item): Item {
    x.(ctype := "multipart/mixed", params := Without(Without(x.params, "start"), "type"))
  }

  /** modify_msg. */
  function Modify(env: Env, path: Path, x: Item): Outcome
    decreases x, 0
  {
    if x.parts == [] then ModifyLeaf(env, path, x)
    else
      var outs := ModifyAll(env, path, x.parts, 0);
      var y := if TurnsMixed(env, x, outs) then Mixed(x) else x;
      Outcome(y.(parts := ItemsOf(outs)), true)
  }

  /** The parts from the `k`th on. */
  function ModifyAll(env: Env, path: Path, parts: seq<Item>, k: nat): (outs: seq<Outcome>)
    ensures |outs| == |parts|
    decreases parts
  {
    if parts == [] then [] else [Modify(env, path + [k], parts[0])] + ModifyAll(env, path, parts[1..], k + 1)
  }
}
