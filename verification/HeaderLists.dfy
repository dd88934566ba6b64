/** gwlib's header lists, also used for parameters: finding a value by name, and removing a name, whatever the case. */
module HeaderLists {
  import opened Wrappers
  import opened Text
  import opened Envelopes

  /** http_header_value: the value of the first header of that name. */
  function HeaderValue(hdrs: seq<Header>, name: string): Option<string> {
    if hdrs == [] then None
    else if EqNoCase(hdrs[0].name, name) then Some(hdrs[0].value)
    else HeaderValue(hdrs[1..], name)
  }

  /** http_header_add: blanks around the value do not count. */
  function NewHeader(name: string, value: string): Header {
    Header(name, StripBlanks(value))
  }

  /** http_header_remove_all. */
  function Without(hdrs: seq<Header>, name: string): seq<Header> {
    if hdrs == [] then []
    else (if EqNoCase(hdrs[0].name, name) then [] else [hdrs[0]]) + Without(hdrs[1..], name)
  }

  /** No header has that name. */
  predicate NoneCalled(hdrs: seq<Header>, name: string) {
    hdrs != [] ==> !EqNoCase(hdrs[0].name, name) && NoneCalled(hdrs[1..], name)
  }

  lemma {:induction false} LastIsFound(hdrs: seq<Header>, h: Header, name: string)
    requires NoneCalled(hdrs, name)
    ensures HeaderValue(hdrs, name) == None
    ensures EqNoCase(h.name, name) ==> HeaderValue(hdrs + [h], name) == Some(h.value)
  {
    if hdrs != [] {
      assert (hdrs + [h])[1..] == hdrs[1..] + [h];
      LastIsFound(hdrs[1..], h, name);
    }
  }

  lemma {:induction false} NoneIsMissing(h: seq<Header>, name: string)
    ensures NoneCalled(h, name) <==> HeaderValue(h, name) == None
    ensures NoneCalled(h, name) ==> Without(h, name) == h
  {
    if h != [] {
      NoneIsMissing(h[1..], name);
      assert h == [h[0]] + h[1..];
    }
  }

  lemma {:induction false} WithoutOthers(h: seq<Header>, gone: string, name: string)
    ensures NoneCalled(Without(h, gone), gone)
    ensures NoneCalled(h, name) ==> NoneCalled(Without(h, gone), name)
    ensures !EqNoCase(gone, name) && NoneCalled(Without(h, gone), name) ==> NoneCalled(h, name)
  {
    if h != [] {
      WithoutOthers(h[1..], gone, name);
      var rest := Without(h[1..], gone);
      if EqNoCase(h[0].name, gone) {
        assert [] + rest == rest;
        assert EqNoCase(h[0].name, name) ==> EqNoCase(gone, name);
      } else {
        assert ([h[0]] + rest)[1..] == rest;
      }
    }
  }

  lemma {:induction false} OneMoreCalled(h: seq<Header>, x: Header, name: string)
    ensures NoneCalled(h + [x], name) <==> NoneCalled(h, name) && !EqNoCase(x.name, name)
  {
    if h == [] {
      assert h + [x] == [x] && [x][1..] == [];
    } else {
      assert (h + [x])[1..] == h[1..] + [x];
      OneMoreCalled(h[1..], x, name);
    }
  }

  /** Exactly one header has that name. */
  predicate CalledOnce(hdrs: seq<Header>, name: string) {
    hdrs != [] && if EqNoCase(hdrs[0].name, name) then NoneCalled(hdrs[1..], name) else CalledOnce(hdrs[1..], name)
  }

  lemma {:induction false} WithoutCounts(h: seq<Header>, name: string)
    ensures |Without(h, name)| <= |h|
    ensures |Without(h, name)| == |h| <==> NoneCalled(h, name)
    ensures |Without(h, name)| + 1 == |h| <==> CalledOnce(h, name)
  {
    if h != [] {
      WithoutCounts(h[1..], name);
    }
  }

  lemma {:induction false} WithoutLast(h: seq<Header>, x: Header, name: string)
    ensures Without(h + [x], name) == Without(h, name) + (if EqNoCase(x.name, name) then [] else [x])
  {
    if h == [] {
      assert h + [x] == [x] && [x][1..] == [];
    } else {
      assert (h + [x])[1..] == h[1..] + [x];
      WithoutLast(h[1..], x, name);
    }
  }
}
