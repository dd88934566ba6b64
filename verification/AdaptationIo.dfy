/** The search loops of modify_msg, with the hash keys that speed them up, and its loop over the parts. */
module AdaptationIo {
  import opened Wrappers
  import opened Text
  import opened Envelopes
  import opened HeaderLists
  import opened Adaptation
  import opened AdaptationProofs

  /** hash_key: the sum of the characters in lower case. */
  function HashKey(s: string): nat {
    if s == "" then 0 else ToLower(s[0]) as nat + HashKey(s[1..])
  }

  /** Strings that are equal whatever the case have the same key, so comparing keys first loses nothing. */
  lemma {:induction false} SameKey(a: string, b: string)
    requires EqNoCase(a, b)
    ensures HashKey(a) == HashKey(b)
  {
    if a != "" {
      assert EqNoCase(a[1..], b[1..]);
      SameKey(a[1..], b[1..]);
    }
  }

  ghost predicate Keyed(l: seq<string>, keys: seq<nat>) {
    |keys| == |l| && forall i :: 0 <= i < |l| ==> keys[i] == HashKey(l[i])
  }

  /** Looks a content type up in the handset's list. */
  method FindAccepted(content: seq<string>, keys: seq<nat>, ctype: string) returns (supported: bool)
    requires Keyed(content, keys)
    ensures supported <==> Among(content, ctype)
  {
    var key := HashKey(ctype);
    supported := false;
    for i := 0 to |content|
      invariant !supported && forall j :: 0 <= j < i ==> !EqNoCase(content[j], ctype)
    {
      if keys[i] == key && EqNoCase(content[i], ctype) {
        return true;
      }
      if EqNoCase(content[i], ctype) {
        SameKey(content[i], ctype);
        assert false;
      }
    }
  }

  function Types(formats: seq<Format>): seq<string> {
    seq(|formats|, i requires 0 <= i < |formats| => formats[i].ctype)
  }

  /** Finds the row of a content type. */
  method FindRow(formats: seq<Format>, keys: seq<nat>, ctype: string) returns (iindex: int)
    requires Keyed(Types(formats), keys)
    ensures iindex == RowOf(formats, ctype, 0)
  {
    var key := HashKey(ctype);
    for i := 0 to |formats|
      invariant RowOf(formats, ctype, 0) == RowOf(formats, ctype, i)
    {
      assert Types(formats)[i] == formats[i].ctype;
      if keys[i] == key && EqNoCase(ctype, formats[i].ctype) {
        return i;
      }
      if EqNoCase(ctype, formats[i].ctype) {
        SameKey(ctype, formats[i].ctype);
        assert false;
      }
    }
    iindex := -1;
  }

  /** The inner loop: is a row of the right medium on the handset's list? */
  method RowListed(f: Format, key: nat, image: bool, content: seq<string>, keys: seq<nat>) returns (found: bool)
    requires Keyed(content, keys) && key == HashKey(f.ctype)
    ensures found <==> f.image == image && Among(content, f.ctype)
  {
    found := false;
    for j := 0 to |content|
      invariant f.image == image ==> forall m :: 0 <= m < j ==> !EqNoCase(content[m], f.ctype)
    {
      if keys[j] == key && f.image == image && EqNoCase(content[j], f.ctype) {
        return true;
      }
      if f.image == image && EqNoCase(content[j], f.ctype) {
        SameKey(content[j], f.ctype);
        assert false;
      }
    }
  }

  /** Finds the first row to convert to. */
  method FindTarget(formats: seq<Format>, rowKeys: seq<nat>, image: bool, content: seq<string>, keys: seq<nat>) returns (oindex: int)
    requires Keyed(Types(formats), rowKeys) && Keyed(content, keys)
    ensures oindex == TargetRow(formats, image, content, 0)
  {
    for i := 0 to |formats|
      invariant TargetRow(formats, image, content, 0) == TargetRow(formats, image, content, i)
    {
      assert Types(formats)[i] == formats[i].ctype;
      var found := RowListed(formats[i], rowKeys[i], image, content, keys);
      if found {
        return i;
      }
    }
    oindex := -1;
  }

  /** The parts of a multipart, each adapted and put back in its place; and whether the start part got lost. */
  method ModifyParts(env: Env, path: Path, x: Item) returns (parts: seq<Item>, sflag: bool)
    ensures parts == ItemsOf(ModifyAll(env, path, x.parts, 0))
    ensures sflag == StartLost(HeaderValue(x.params, "start"), x.parts, ModifyAll(env, path, x.parts, 0))
    decreases x, 0
  {
    var start := HeaderValue(x.params, "start");
    ghost var outs := ModifyAll(env, path, x.parts, 0);
    parts, sflag := x.parts, false;
    for i := 0 to |x.parts|
      invariant |parts| == |x.parts| && parts[i..] == x.parts[i..]
      invariant forall j :: 0 <= j < i ==> parts[j] == outs[j].item
      invariant sflag <==> exists j :: 0 <= j < i && start.Some? && !outs[j].supported && x.parts[j].cid == start
    {
      assert parts[i..][0] == x.parts[i..][0];
      OutsOf(env, path, x.parts, 0, i);
      var y, sup := ModifyMsg(env, path + [i], x.parts[i]);
      if !sup && start.Some? && x.parts[i].cid == start {
        sflag := true;
      }
      ghost var before := parts;
      parts := parts[i := y];
      assert parts[i + 1..] == before[i..][1..] == x.parts[i..][1..];
    }
    ItemsAre(parts, outs);
  }

  lemma {:induction false} ItemsAre(items: seq<Item>, outs: seq<Outcome>)
    requires |items| == |outs| && forall j :: 0 <= j < |outs| ==> items[j] == outs[j].item
    ensures items == ItemsOf(outs)
  {
    if outs != [] {
      ItemsAre(items[1..], outs[1..]);
      assert items == [items[0]] + items[1..];
    }
  }

  method ModifyMsg(env: Env, path: Path, x: Item) returns (y: Item, supported: bool)
    ensures Outcome(y, supported) == Modify(env, path, x)
    decreases x, 1
  {
    if x.parts == [] {
      var r := ModifyLeaf(env, path, x);
      return r.item, r.supported;
    }
    var parts, sflag := ModifyParts(env, path, x);
    y := x;
    var start := HeaderValue(x.params, "start");
    if sflag || (start.None? && EqNoCase(x.ctype, "multipart/related")) || !(env.profile.presentation || env.profile.all) {
      y := y.(ctype := "multipart/mixed", params := Without(Without(x.params, "start"), "type"));
    }
    y := y.(parts := parts);
    supported := true;
  }
}
