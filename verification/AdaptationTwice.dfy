/** Adapting an adapted message changes nothing. */
module AdaptationTwice {
  import opened Wrappers
  import opened Text
  import opened Envelopes
  import opened HeaderLists
  import opened Adaptation
  import opened AdaptationProofs

  predicate TooBig(p: Profile, d: Dim) {
    d.x > p.maxX || d.y > p.maxY
  }

  /** The formats are what they are filed under. */
  ghost predicate Sorted(formats: seq<Format>) {
    forall i :: 0 <= i < |formats| ==> MediaOf(formats[i].ctype) == if formats[i].image then Image else Audio
  }

  /** What comes out of a conversion fits the screen, as scaling is meant to ensure. */
  ghost predicate Fits(env: Env) {
    forall path, job, body ::
      match env.tools.convert(path, job, body)
      case None => true
      case Some(b) => env.tools.measure(path, b).Some? ==> !TooBig(env.profile, env.tools.measure(path, b).value)
  }

  /** The handset has no charset called "unknown", and takes the default charset unless it lists none. */
  predicate GoodCharsets(env: Env) {
    && "unknown" !in env.profile.charsets
    && (env.profile.charsets == [] || Among(env.profile.charsets, env.defaultCharset))
  }

  // ---- leaves ----

  /** A leaf that modify_msg leaves as it is. */
  predicate Settled(env: Env, path: Path, x: Item) {
    x.parts == [] && ModifyLeaf(env, path, x) == Outcome(x, true)
  }

  lemma CharsetPut(env: Env, x: Item, to: string, body: string)
    requires to in env.profile.charsets && GoodCharsets(env)
    ensures var y := x.(params := Without(x.params, "charset") + [Header("charset", to)], body := body);
            CharsetOf(env, y.params) == to && Among(env.profile.charsets, CharsetOf(env, y.params))
  {
    WithoutOthers(x.params, "charset", "charset");
    LastIsFound(Without(x.params, "charset"), Header("charset", to), "charset");
    var i :| 0 <= i < |env.profile.charsets| && env.profile.charsets[i] == to;
    assert EqNoCase(env.profile.charsets[i], to);
  }

  lemma {:induction false} RecodedSettles(env: Env, path: Path, x: Item, k: nat)
    requires k <= |env.profile.charsets| && GoodCharsets(env)
    ensures var y := Recoded(env, path, x, k); y == x || Among(env.profile.charsets, CharsetOf(env, y.params))
    decreases |env.profile.charsets| - k
  {
    if k < |env.profile.charsets| {
      match env.tools.recode(path, x.body, CharsetOf(env, x.params), env.profile.charsets[k])
      case None => RecodedSettles(env, path, x, k + 1);
      case Some(body) => CharsetPut(env, x, env.profile.charsets[k], body);
    }
  }

  lemma TextSettles(env: Env, path: Path, x: Item)
    requires GoodCharsets(env) && x.parts == [] && MediaOf(x.ctype) == TextMedia
    ensures Settled(env, path, ModifyText(env, path, x))
  {
    RecodedSettles(env, path, x, 0);
    RecodedKeepsType(env, path, x, 0);
  }

  lemma RemovedSettles(env: Env, path: Path, x: Item)
    requires GoodCharsets(env)
    ensures Settled(env, path, Removed(x))
  {
    PlainIsText();
    assert CharsetOf(env, []) == env.defaultCharset;
  }

  lemma FittingSettles(env: Env, path: Path, y: Item)
    requires y.parts == [] && MediaOf(y.ctype) != TextMedia && Accepts(env.profile, y.ctype)
    requires var d := env.tools.measure(path, y.body); d.Some? ==> !TooBig(env.profile, d.value)
    ensures Settled(env, path, y)
  {
  }

  lemma ConversionFits(env: Env, path: Path, job: Job, body: string)
    requires Fits(env)
    ensures var b := env.tools.convert(path, job, body);
            b.Some? ==> var d := env.tools.measure(path, b.value); d.Some? ==> !TooBig(env.profile, d.value)
  {
  }

  lemma ConvertedSettles(env: Env, path: Path, x: Item, f: Format, job: Job, supported: bool, image: bool)
    requires Fits(env) && Sorted(env.formats) && x.parts == [] && (supported ==> Accepts(env.profile, x.ctype))
    requires env.tools.convert(path, job, x.body).Some?
    requires var i, o := RowOf(env.formats, x.ctype, 0), TargetRow(env.formats, image, env.profile.content, 0);
             i >= 0 && o >= 0 && f == env.formats[if supported then i else o]
    ensures Settled(env, path, Replaced(x, env.tools.convert(path, job, x.body).value, f))
  {
    ConvertedIsShown(env, x.ctype, supported, image);
    ConversionFits(env, path, job, x.body);
    FittingSettles(env, path, Replaced(x, env.tools.convert(path, job, x.body).value, f));
  }

  lemma AudioSettles(env: Env, path: Path, x: Item)
    requires Fits(env) && Sorted(env.formats) && GoodCharsets(env) && x.parts == [] && MediaOf(x.ctype) == Audio
    ensures Settled(env, path, ModifyAudio(env, path, x).item)
  {
    RemovedSettles(env, path, x);
    var i, o := RowOf(env.formats, x.ctype, 0), TargetRow(env.formats, false, env.profile.content, 0);
    if !Accepts(env.profile, x.ctype) && i >= 0 && o >= 0 {
      var job := ConvertAudio(env.formats[i].ctype, env.formats[o].ctype);
      if env.tools.convert(path, job, x.body).Some? {
        ConvertedSettles(env, path, x, env.formats[o], job, false, false);
      }
    }
  }

  /** An accepted image that is kept as it is will be kept again. */
  lemma ImageSettles(env: Env, path: Path, x: Item)
    requires Fits(env) && Sorted(env.formats) && GoodCharsets(env) && x.parts == [] && MediaOf(x.ctype) == Image
    ensures Settled(env, path, ModifyImage(env, path, x).item)
  {
    RemovedSettles(env, path, x);
    var supported := Accepts(env.profile, x.ctype);
    var i, o := RowOf(env.formats, x.ctype, 0), TargetRow(env.formats, true, env.profile.content, 0);
    if i >= 0 && o >= 0 && env.tools.measure(path, x.body).Some? {
      var big := TooBig(env.profile, env.tools.measure(path, x.body).value);
      var job := ImageJob(env.formats[i], env.formats[o], supported, big);
      if (big || !supported) && env.tools.convert(path, job, x.body).Some? {
        ConvertedSettles(env, path, x, env.formats[if supported then i else o], job, supported, true);
      }
    }
  }

  lemma LeafSettles(env: Env, path: Path, x: Item)
    requires Fits(env) && Sorted(env.formats) && GoodCharsets(env) && x.parts == []
    ensures Settled(env, path, ModifyLeaf(env, path, x).item)
  {
    match MediaOf(x.ctype)
    case TextMedia => TextSettles(env, path, x);
    case Other => RemovedSettles(env, path, x);
    case Audio => AudioSettles(env, path, x);
    case Image => ImageSettles(env, path, x);
  }

  // ---- trees ----

  ghost predicate AllSupported(outs: seq<Outcome>) {
    forall i :: 0 <= i < |outs| ==> outs[i].supported
  }

  /** A multipart that was adapted meets none of the reasons to become mixed again, or is already. */
  lemma HeadSettles(env: Env, x: Item, outs: seq<Outcome>, items: seq<Item>, again: seq<Outcome>)
    requires |outs| == |x.parts| && |again| == |items| && AllSupported(again)
    ensures var y := (if TurnsMixed(env, x, outs) then Mixed(x) else x).(parts := items);
            (if TurnsMixed(env, y, again) then Mixed(y) else y) == y
  {
    var p := Without(x.params, "start");
    WithoutOthers(x.params, "start", "start");
    WithoutOthers(p, "type", "start");
    WithoutOthers(p, "type", "type");
    NoneIsMissing(Without(p, "type"), "start");
    NoneIsMissing(Without(p, "type"), "type");
    assert !EqNoCase("multipart/mixed", "multipart/related");
  }

  lemma {:induction false} ItemsCount(outs: seq<Outcome>)
    ensures |ItemsOf(outs)| == |outs|
  {
    if outs != [] {
      ItemsCount(outs[1..]);
    }
  }

  // ---- which leaves stay ----

  /** The first charset, from the `k`th on, that the text can be converted to leaves it as it is, or there is none. */
  predicate RecodingStays(env: Env, path: Path, x: Item, k: nat)
    requires k <= |env.profile.charsets|
    decreases |env.profile.charsets| - k
  {
    if k == |env.profile.charsets| then true
    else
      var to := env.profile.charsets[k];
      match env.tools.recode(path, x.body, CharsetOf(env, x.params), to)
      case None => RecodingStays(env, path, x, k + 1)
      case Some(body) => body == x.body && Without(x.params, "charset") + [Header("charset", to)] == x.params
  }

  /** The image need not be scaled, cannot be, or comes out of it as it was, under its table name. */
  predicate ScalingStays(env: Env, path: Path, x: Item) {
    !CanConvert(env, x, true)
    || (match env.tools.measure(path, x.body)
        case None => true
        case Some(d) => !TooBig(env.profile, d) || ScaledStays(env, path, x))
  }

  predicate ScaledStays(env: Env, path: Path, x: Item)
    requires CanConvert(env, x, true)
  {
    var f := env.formats[RowOf(env.formats, x.ctype, 0)];
    match env.tools.convert(path, Scale(f.ext), x.body)
    case None => true
    case Some(body) => body == x.body && f.ctype == x.ctype && NameStays(x.params, f.ext)
  }

  /** The file name is the last parameter, the only one of its name, and has the format's extension. */
  predicate NameStays(params: seq<Header>, ext: string) {
    match HeaderValue(params, "name")
    case None => true
    case Some(n) => Without(params, "name") + [Header("name", NewName(n, ext))] == params
  }

  /** What a caller can check of a leaf: it is shown; a text is in a charset of the handset or need not change to
      get there; an image fits the screen, or scaling it fails or changes nothing. */
  predicate LeafStays(env: Env, path: Path, x: Item) {
    match MediaOf(x.ctype)
    case TextMedia => Among(env.profile.charsets, CharsetOf(env, x.params)) || RecodingStays(env, path, x, 0)
    case Image => Accepts(env.profile, x.ctype) && ScalingStays(env, path, x)
    case _ => Accepts(env.profile, x.ctype)
  }

  lemma {:induction false} RecodingStaysIff(env: Env, path: Path, x: Item, k: nat)
    requires k <= |env.profile.charsets|
    ensures Recoded(env, path, x, k) == x <==> RecodingStays(env, path, x, k)
    decreases |env.profile.charsets| - k
  {
    if k < |env.profile.charsets| {
      RecodingStaysIff(env, path, x, k + 1);
    }
  }

  lemma ImageStaysIff(env: Env, path: Path, x: Item)
    requires MediaOf(x.ctype) == Image
    ensures ModifyImage(env, path, x) == Outcome(x, true) <==> Accepts(env.profile, x.ctype) && ScalingStays(env, path, x)
  {
    if CanConvert(env, x, true) {
      ConvertedIsShown(env, x.ctype, Accepts(env.profile, x.ctype), true);
      ImageOutcome(env, path, x);
    }
  }

  lemma AudioStaysIff(env: Env, path: Path, x: Item)
    requires MediaOf(x.ctype) == Audio
    ensures ModifyAudio(env, path, x) == Outcome(x, true) <==> Accepts(env.profile, x.ctype)
  {
    if !Accepts(env.profile, x.ctype) && CanConvert(env, x, false) {
      ConvertedIsShown(env, x.ctype, false, false);
    }
  }

  /** A leaf is left as it is exactly when it stays. */
  lemma LeafStaysIff(env: Env, path: Path, x: Item)
    ensures ModifyLeaf(env, path, x) == Outcome(x, true) <==> LeafStays(env, path, x)
  {
    match MediaOf(x.ctype)
    case TextMedia => RecodingStaysIff(env, path, x, 0);
    case Other =>
    case Audio => AudioStaysIff(env, path, x);
    case Image => ImageStaysIff(env, path, x);
  }

  // ---- the second time ----

  /** All leaves stay. */
  predicate LeavesStay(env: Env, path: Path, x: Item)
    decreases x, 0
  {
    if x.parts == [] then LeafStays(env, path, x) else AllLeavesStay(env, path, x.parts, 0)
  }

  predicate AllLeavesStay(env: Env, path: Path, parts: seq<Item>, k: nat)
    decreases parts
  {
    parts != [] ==> LeavesStay(env, path + [k], parts[0]) && AllLeavesStay(env, path, parts[1..], k + 1)
  }

  /** A part that is as it was was not removed. */
  lemma UnchangedIsSupported(env: Env, path: Path, x: Item)
    ensures Modify(env, path, x).item == x ==> Modify(env, path, x).supported
  {
    UnsupportedIff(env, path, x);
    PlainIsText();
  }

  lemma SameHeadAndTail(a: Item, s: seq<Item>, b: Item, t: seq<Item>)
    ensures [a] + s == [b] + t <==> a == b && s == t
  {
    if [a] + s == [b] + t {
      assert ([a] + s)[0] == ([b] + t)[0] && ([a] + s)[1..] == ([b] + t)[1..];
      assert ([a] + s)[1..] == s && ([b] + t)[1..] == t;
    }
  }

  /** Main result: adapting a message a second time changes and removes nothing exactly when, after the first
      time, every text is in a charset of the handset or cannot be brought to one, and every image fits the screen
      or is left alone by scaling. */
  lemma {:induction false} TwiceIff(env: Env, path: Path, x: Item)
    ensures var y := Modify(env, path, x).item; Modify(env, path, y) == Outcome(y, true) <==> LeavesStay(env, path, y)
    decreases x, 0
  {
    if x.parts == [] {
      LeafIsShown(env, path, x);
      LeafStaysIff(env, path, Modify(env, path, x).item);
    } else {
      AllTwiceIff(env, path, x.parts, 0);
      TreeTwiceIff(env, path, x);
    }
  }

  /** A multipart that was adapted stays exactly when its parts do. */
  lemma TreeTwiceIff(env: Env, path: Path, x: Item)
    requires x.parts != []
    ensures var y := Modify(env, path, x).item;
            Modify(env, path, y) == Outcome(y, true) <==> ItemsOf(ModifyAll(env, path, y.parts, 0)) == y.parts
  {
    var outs := ModifyAll(env, path, x.parts, 0);
    ItemsCount(outs);
    var again := ModifyAll(env, path, ItemsOf(outs), 0);
    if ItemsOf(again) == ItemsOf(outs) {
      UnchangedAreSupported(env, path, ItemsOf(outs), 0);
      HeadSettles(env, x, outs, ItemsOf(outs), again);
    }
  }

  lemma {:induction false} UnchangedAreSupported(env: Env, path: Path, items: seq<Item>, k: nat)
    requires ItemsOf(ModifyAll(env, path, items, k)) == items
    ensures AllSupported(ModifyAll(env, path, items, k))
    decreases |items|
  {
    if items != [] {
      var first, more := Modify(env, path + [k], items[0]), ModifyAll(env, path, items[1..], k + 1);
      HeadAndTail(first, more);
      assert ItemsOf(more) == items[1..];
      UnchangedIsSupported(env, path + [k], items[0]);
      UnchangedAreSupported(env, path, items[1..], k + 1);
    }
  }

  lemma {:induction false} AllTwiceIff(env: Env, path: Path, parts: seq<Item>, k: nat)
    ensures var items := ItemsOf(ModifyAll(env, path, parts, k));
            ItemsOf(ModifyAll(env, path, items, k)) == items <==> AllLeavesStay(env, path, items, k)
    decreases parts
  {
    if parts != [] {
      TwiceIff(env, path + [k], parts[0]);
      AllTwiceIff(env, path, parts[1..], k + 1);
      var first, more := Modify(env, path + [k], parts[0]), ModifyAll(env, path, parts[1..], k + 1);
      HeadAndTail(first, more);
      var again := Modify(env, path + [k], first.item);
      HeadAndTail(again, ModifyAll(env, path, ItemsOf(more), k + 1));
      UnchangedIsSupported(env, path + [k], first.item);
      SameHeadAndTail(again.item, ItemsOf(ModifyAll(env, path, ItemsOf(more), k + 1)), first.item, ItemsOf(more));
    }
  }

  // ---- environments in which everything stays ----

  /** Where conversions fit the screen and the handset takes the default charset, adapting twice is adapting once. */
  lemma TwiceIsOnce(env: Env, path: Path, x: Item)
    requires Fits(env) && Sorted(env.formats) && GoodCharsets(env)
    ensures var y := Modify(env, path, x).item; Modify(env, path, y) == Outcome(y, true)
  {
    TwiceIff(env, path, x);
    LeavesSettle(env, path, x);
  }

  lemma {:induction false} LeavesSettle(env: Env, path: Path, x: Item)
    requires Fits(env) && Sorted(env.formats) && GoodCharsets(env)
    ensures LeavesStay(env, path, Modify(env, path, x).item)
    decreases x, 0
  {
    if x.parts == [] {
      LeafSettles(env, path, x);
      LeafStaysIff(env, path, Modify(env, path, x).item);
    } else {
      AllLeavesSettle(env, path, x.parts, 0);
      ItemsCount(ModifyAll(env, path, x.parts, 0));
    }
  }

  lemma {:induction false} AllLeavesSettle(env: Env, path: Path, parts: seq<Item>, k: nat)
    requires Fits(env) && Sorted(env.formats) && GoodCharsets(env)
    ensures AllLeavesStay(env, path, ItemsOf(ModifyAll(env, path, parts, k)), k)
    decreases parts
  {
    if parts != [] {
      LeavesSettle(env, path + [k], parts[0]);
      AllLeavesSettle(env, path, parts[1..], k + 1);
      HeadAndTail(Modify(env, path + [k], parts[0]), ModifyAll(env, path, parts[1..], k + 1));
    }
  }
}
