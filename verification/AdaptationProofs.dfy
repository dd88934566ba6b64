/** What modify_msg promises, whatever the converters do. */
module AdaptationProofs {
  import opened Wrappers
  import opened Text
  import opened Envelopes
  import opened HeaderLists
  import opened Adaptation

  // ---- words and cases ----

  lemma NoCaseTransitive(a: string, b: string, c: string)
    requires EqNoCase(a, b) && EqNoCase(b, c)
    ensures EqNoCase(a, c)
  {
  }

  lemma AmongRespectsCase(l: seq<string>, a: string, b: string)
    requires EqNoCase(a, b) && Among(l, a)
    ensures Among(l, b)
  {
    var i :| 0 <= i < |l| && EqNoCase(l[i], a);
    NoCaseTransitive(l[i], a, b);
  }

  /** The first row found has the content type that was looked for. */
  lemma {:induction false} RowMatches(formats: seq<Format>, ctype: string, k: nat)
    requires k <= |formats|
    ensures var i := RowOf(formats, ctype, k); i >= 0 ==> EqNoCase(ctype, formats[i].ctype)
    decreases |formats| - k
  {
    if k < |formats| && !EqNoCase(ctype, formats[k].ctype) {
      RowMatches(formats, ctype, k + 1);
    }
  }

  lemma SearchAtFront(s: string, p: string)
    requires p != "" && SearchNoCase(s, p) == 0
    ensures |s| >= |p| && ToLower(s[0]) == ToLower(p[0])
  {
    assert s[..|p|][0] == s[0];
  }

  /** A removed object has become a text. */
  lemma PlainIsText()
    ensures MediaOf("text/plain") == TextMedia
  {
    var s := "text/plain";
    if SearchNoCase(s, "image/") == 0 {
      SearchAtFront(s, "image/");
    }
    if SearchNoCase(s, "audio/") == 0 {
      SearchAtFront(s, "audio/");
    }
    assert s[..5] == "text/";
  }

  // ---- one leaf ----

  /** The handset can show a leaf of this type. */
  predicate Shows(p: Profile, ctype: string) {
    MediaOf(ctype) == TextMedia || Accepts(p, ctype)
  }

  /** The image or sound that a conversion puts in is of a type the handset lists. */
  lemma ConvertedIsShown(env: Env, ctype: string, supported: bool, image: bool)
    requires supported ==> Accepts(env.profile, ctype)
    requires RowOf(env.formats, ctype, 0) >= 0 && TargetRow(env.formats, image, env.profile.content, 0) >= 0
    ensures var i, o := RowOf(env.formats, ctype, 0), TargetRow(env.formats, image, env.profile.content, 0);
            Accepts(env.profile, env.formats[if supported then i else o].ctype)
  {
    RowMatches(env.formats, ctype, 0);
    if supported && !env.profile.all {
      AmongRespectsCase(env.profile.content, ctype, env.formats[RowOf(env.formats, ctype, 0)].ctype);
    }
  }

  lemma {:induction false} RecodedKeepsType(env: Env, path: Path, x: Item, k: nat)
    requires k <= |env.profile.charsets|
    ensures var y := Recoded(env, path, x, k); y.ctype == x.ctype && y.parts == x.parts && y.cid == x.cid
    decreases |env.profile.charsets| - k
  {
    if k < |env.profile.charsets| {
      RecodedKeepsType(env, path, x, k + 1);
    }
  }

  /** A leaf stays a leaf with its content id; it comes out with a type the handset shows; and it counts as
      unsupported exactly when its content was removed, which takes a type the handset does not show. */
  lemma LeafIsShown(env: Env, path: Path, x: Item)
    requires x.parts == []
    ensures WellDone(env.profile, x, ModifyLeaf(env, path, x))
  {
    match MediaOf(x.ctype)
    case TextMedia => RecodedKeepsType(env, path, x, 0);
    case Other => KeptOrRemovedShows(env.profile, x, Accepts(env.profile, x.ctype));
    case Audio => AudioIsShown(env, path, x);
    case Image => ImageIsShown(env, path, x);
  }

  /** What a leaf comes out as. */
  predicate WellDone(p: Profile, x: Item, r: Outcome) {
    && r.item.parts == [] && r.item.cid == x.cid && Shows(p, r.item.ctype)
    && (!r.supported ==> r.item == Removed(x) && !Shows(p, x.ctype))
  }

  lemma KeptOrRemovedShows(p: Profile, x: Item, supported: bool)
    requires x.parts == [] && MediaOf(x.ctype) != TextMedia && supported == Accepts(p, x.ctype)
    ensures WellDone(p, x, KeptOrRemoved(x, supported))
  {
    PlainIsText();
  }

  lemma AudioIsShown(env: Env, path: Path, x: Item)
    requires x.parts == [] && MediaOf(x.ctype) == Audio
    ensures WellDone(env.profile, x, ModifyAudio(env, path, x))
  {
    if !Accepts(env.profile, x.ctype) {
      KeptOrRemovedShows(env.profile, x, false);
      if RowOf(env.formats, x.ctype, 0) >= 0 && TargetRow(env.formats, false, env.profile.content, 0) >= 0 {
        ConvertedIsShown(env, x.ctype, false, false);
      }
    }
  }

  lemma ImageIsShown(env: Env, path: Path, x: Item)
    requires x.parts == [] && MediaOf(x.ctype) == Image
    ensures WellDone(env.profile, x, ModifyImage(env, path, x))
  {
    var supported := Accepts(env.profile, x.ctype);
    KeptOrRemovedShows(env.profile, x, supported);
    var i, o := RowOf(env.formats, x.ctype, 0), TargetRow(env.formats, true, env.profile.content, 0);
    if i >= 0 && o >= 0 {
      ConvertedIsShown(env, x.ctype, supported, true);
      ImageOutcome(env, path, x);
      ReplacedShows(env.profile, x, env.formats[if supported then i else o]);
    }
  }

  /** An image that can be converted is kept or removed, or gets a new body. */
  lemma ImageOutcome(env: Env, path: Path, x: Item)
    requires RowOf(env.formats, x.ctype, 0) >= 0 && TargetRow(env.formats, true, env.profile.content, 0) >= 0
    ensures var supported := Accepts(env.profile, x.ctype);
            var f := env.formats[if supported then RowOf(env.formats, x.ctype, 0) else TargetRow(env.formats, true, env.profile.content, 0)];
            var r := ModifyImage(env, path, x);
            r == KeptOrRemoved(x, supported) || r == Outcome(Replaced(x, r.item.body, f), true)
  {
    var supported := Accepts(env.profile, x.ctype);
    var i, o := RowOf(env.formats, x.ctype, 0), TargetRow(env.formats, true, env.profile.content, 0);
    var d := env.tools.measure(path, x.body);
    if d.Some? {
      var big := d.value.x > env.profile.maxX || d.value.y > env.profile.maxY;
      if big || !supported {
        var b := env.tools.convert(path, ImageJob(env.formats[i], env.formats[o], supported, big), x.body);
        assert b.Some? ==> ModifyImage(env, path, x).item == Replaced(x, b.value, env.formats[if supported then i else o]);
      }
    }
  }

  /** A body of an accepted type is put in. */
  lemma ReplacedShows(p: Profile, x: Item, f: Format)
    requires x.parts == [] && Accepts(p, f.ctype)
    ensures forall body :: WellDone(p, x, Outcome(Replaced(x, body, f), true))
  {
  }

  // ---- trees ----

  predicate SameShape(a: seq<Item>, b: seq<Item>) {
    |a| == |b| && (a != [] ==> a[0].cid == b[0].cid && SameShape(a[0].parts, b[0].parts) && SameShape(a[1..], b[1..]))
  }

  /** Every leaf can be shown. */
  predicate AllShown(p: Profile, items: seq<Item>) {
    items != [] ==> ItemShown(p, items[0]) && AllShown(p, items[1..])
  }

  predicate ItemShown(p: Profile, x: Item) {
    if x.parts == [] then Shows(p, x.ctype) else AllShown(p, x.parts)
  }

  /** Main result: the tree keeps its shape and its content ids, and every leaf comes out as text, as a type
      on the handset's list, or as it was if the handset takes everything. */
  lemma {:induction false} ModifyShowsAll(env: Env, path: Path, x: Item)
    ensures var y := Modify(env, path, x).item;
            ItemShown(env.profile, y) && y.cid == x.cid && SameShape(x.parts, y.parts)
    decreases x, 0
  {
    if x.parts == [] {
      LeafIsShown(env, path, x);
    } else {
      AllModifiedShown(env, path, x.parts, 0);
    }
  }

  lemma {:induction false} AllModifiedShown(env: Env, path: Path, parts: seq<Item>, k: nat)
    ensures var items := ItemsOf(ModifyAll(env, path, parts, k)); AllShown(env.profile, items) && SameShape(parts, items)
    decreases parts
  {
    if parts != [] {
      ModifyShowsAll(env, path + [k], parts[0]);
      AllModifiedShown(env, path, parts[1..], k + 1);
      HeadAndTail(Modify(env, path + [k], parts[0]), ModifyAll(env, path, parts[1..], k + 1));
    }
  }

  lemma HeadAndTail(o: Outcome, outs: seq<Outcome>)
    ensures ItemsOf([o] + outs) == [o.item] + ItemsOf(outs)
    ensures ([o.item] + ItemsOf(outs))[0] == o.item && ([o.item] + ItemsOf(outs))[1..] == ItemsOf(outs)
  {
    assert ([o] + outs)[1..] == outs;
  }

  /** No way to turn a leaf into something the handset shows: its medium cannot be converted, a format is missing,
      the image cannot be measured, or the conversion fails. */
  predicate Hopeless(env: Env, path: Path, x: Item) {
    && !Shows(env.profile, x.ctype)
    && match MediaOf(x.ctype)
       case TextMedia => false
       case Other => true
       case Audio => !CanConvert(env, x, false) || env.tools.convert(path, AudioJob(env, x), x.body).None?
       case Image => !CanConvert(env, x, true) || env.tools.measure(path, x.body).None?
                     || env.tools.convert(path, UnshownJob(env, path, x), x.body).None?
  }

  /** The table has the leaf's format, and one of its medium that the handset lists. */
  predicate CanConvert(env: Env, x: Item, image: bool) {
    RowOf(env.formats, x.ctype, 0) >= 0 && TargetRow(env.formats, image, env.profile.content, 0) >= 0
  }

  function AudioJob(env: Env, x: Item): Job
    requires CanConvert(env, x, false)
  {
    ConvertAudio(env.formats[RowOf(env.formats, x.ctype, 0)].ctype, env.formats[TargetRow(env.formats, false, env.profile.content, 0)].ctype)
  }

  /** The conversion of an image that is not shown. */
  function UnshownJob(env: Env, path: Path, x: Item): Job
    requires CanConvert(env, x, true) && env.tools.measure(path, x.body).Some?
  {
    var i, o := env.formats[RowOf(env.formats, x.ctype, 0)], env.formats[TargetRow(env.formats, true, env.profile.content, 0)];
    var d := env.tools.measure(path, x.body).value;
    ConvertImage(i.ext, o.ext, i.multi && !o.multi, d.x > env.profile.maxX || d.y > env.profile.maxY)
  }

  /** A part comes out unsupported exactly when it is a leaf that cannot be shown and cannot be turned into one that
      is; then its content is removed. */
  lemma UnsupportedIff(env: Env, path: Path, x: Item)
    ensures !Modify(env, path, x).supported <==> x.parts == [] && Hopeless(env, path, x)
    ensures !Modify(env, path, x).supported ==> Modify(env, path, x).item == Removed(x)
  {
    if x.parts == [] {
      LeafIsShown(env, path, x);
      match MediaOf(x.ctype)
      case TextMedia =>
      case Other =>
      case Audio =>
      case Image => ImageUnsupportedIff(env, path, x);
    }
  }

  lemma ImageUnsupportedIff(env: Env, path: Path, x: Item)
    requires MediaOf(x.ctype) == Image
    ensures !ModifyImage(env, path, x).supported <==> Hopeless(env, path, x)
  {
    var supported := Accepts(env.profile, x.ctype);
    if CanConvert(env, x, true) && env.tools.measure(path, x.body).Some? && !supported {
      assert UnshownJob(env, path, x) ==
        ImageJob(env.formats[RowOf(env.formats, x.ctype, 0)], env.formats[TargetRow(env.formats, true, env.profile.content, 0)], false,
                 env.tools.measure(path, x.body).value.x > env.profile.maxX || env.tools.measure(path, x.body).value.y > env.profile.maxY);
    }
  }

  lemma {:induction false} OutsOf(env: Env, path: Path, parts: seq<Item>, k: nat, i: nat)
    requires i < |parts|
    ensures ModifyAll(env, path, parts, k)[i] == Modify(env, path + [k + i], parts[i])
  {
    if i > 0 {
      OutsOf(env, path, parts[1..], k + 1, i - 1);
    }
  }

  /** The removed part that was to start the presentation. */
  predicate StartRemoved(env: Env, path: Path, x: Item) {
    exists i :: 0 <= i < |x.parts| && IsLostStart(env, path, x, i)
  }

  predicate IsLostStart(env: Env, path: Path, x: Item, i: nat)
    requires i < |x.parts|
  {
    HeaderValue(x.params, "start").Some? && x.parts[i].cid == HeaderValue(x.params, "start") && !Modify(env, path + [i], x.parts[i]).supported
  }

  /** A multipart becomes multipart/mixed without start and type exactly when its start part was removed, it
      was multipart/related without a start, or the handset takes no presentations; and keeps its type and
      parameters otherwise. */
  lemma MixedIff(env: Env, path: Path, x: Item)
    requires x.parts != []
    ensures var y := Modify(env, path, x).item;
            if StartRemoved(env, path, x) || (HeaderValue(x.params, "start").None? && EqNoCase(x.ctype, "multipart/related"))
               || !(env.profile.presentation || env.profile.all)
            then y.ctype == "multipart/mixed" && NoneCalled(y.params, "start") && NoneCalled(y.params, "type")
            else y.ctype == x.ctype && y.params == x.params
  {
    var outs := ModifyAll(env, path, x.parts, 0);
    forall i | 0 <= i < |x.parts| ensures outs[i] == Modify(env, path + [i], x.parts[i]) {
      OutsOf(env, path, x.parts, 0, i);
    }
    var start := HeaderValue(x.params, "start");
    if StartLost(start, x.parts, outs) {
      var i :| 0 <= i < |x.parts| && !outs[i].supported && x.parts[i].cid == start;
      assert IsLostStart(env, path, x, i);
    }
    if StartRemoved(env, path, x) {
      var i :| 0 <= i < |x.parts| && IsLostStart(env, path, x, i);
      assert !outs[i].supported && x.parts[i].cid == start;
    }
    var p := Without(x.params, "start");
    WithoutOthers(x.params, "start", "start");
    WithoutOthers(p, "type", "start");
  }
}
