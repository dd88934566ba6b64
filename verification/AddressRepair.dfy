/**
  What the queue reader's address repair does to an address over repeated reads: it settles at once,
  except for one family of addresses that grows by a suffix on every read.
 */
module AddressRepair {
  import opened Text
  import opened Envelopes

  const TYPE := "/TYPE="
  const PLMN := "/TYPE=PLMN"
  const UNKNOWN := "@unknown"

  /** Addresses such as "@home": an at sign in front, no type suffix, and not otherwise valid. */
  predicate Grows(s: string) {
    s != "" && s[0] == '@' && SearchNoCase(s, TYPE) < 0 && !ValidAddress(s)
  }

  /** Case folding keeps slashes and at signs apart from everything else. */
  lemma OccurrenceAt(s: string, p: string, i: int, k: nat)
    requires OccursAt(s, p, i) && k < |p|
    ensures ToLower(s[i + k]) == ToLower(p[k])
  {
    assert s[i..i + |p|][k] == s[i + k];
  }

  /** Replacing what follows the first type marker by the standard suffix keeps its place. */
  lemma TypePlaceKept(s: string, i: nat)
    requires SearchNoCase(s, TYPE) == i
    ensures SearchNoCase(s[..i] + PLMN, TYPE) == i
  {
    SearchFirst(s, TYPE);
    var f := s[..i] + PLMN;
    assert f[i..i + 6] == TYPE;
    forall j | OccursAt(f, TYPE, j) ensures i <= j {
      if j < i {
        forall k | 0 <= k < 6 ensures ToLower(s[j + k]) == ToLower(TYPE[k]) {
          OccurrenceAt(f, TYPE, j, k);
          if j + k >= i {
            OccurrenceAt(s, TYPE, i, j + k - i);
            assert f[j + k] == PLMN[j + k - i] == TYPE[j + k - i];
          }
        }
        assert OccursAt(s, TYPE, j);
      }
    }
    SearchIs(f, TYPE, i);
  }

  lemma PhoneSettles(s: string)
    requires s != "" && IsPhoneNumber(s)
    ensures FixupAddress(s + PLMN) == s + PLMN && s[0] != '@'
  {
    assert s[0] == '+' || IsDigit(s[0]);
    var f := s + PLMN;
    assert f[|s|..|s| + 6] == TYPE;
    forall j | 0 <= j < |s| ensures ToLower(f[j]) != '/' {
      if s[0] == '+' && j > 0 {
        assert IsDigit(s[1..][j - 1]);
      }
    }
    forall j | OccursAt(f, TYPE, j) ensures |s| <= j {
      OccurrenceAt(f, TYPE, j, 0);
    }
    SearchIs(f, TYPE, |s|);
    assert f[..|s|] == s;
  }

  lemma EmptySettles()
    ensures ValidAddress(PLMN)
  {
    assert PLMN[6..10] == "PLMN";
    forall j | OccursAt(PLMN, "PLMN", j) ensures 6 <= j {
      OccurrenceAt(PLMN, "PLMN", j, 0);
      OccurrenceAt(PLMN, "PLMN", j, 1);
    }
    SearchIs(PLMN, "PLMN", 6);
  }

  lemma AtSignEnds(s: string)
    requires s != "" && '@' !in s
    ensures ValidAddress(s + UNKNOWN)
  {
    IndexOfPrefix(s, '@', "unknown");
    assert s + UNKNOWN == s + ['@'] + "unknown";
  }

  /** A search for four letters cannot end where "unknown" ends, unless they start like "nown". */
  lemma UnknownIsNoType(s: string, p: string)
    requires |p| == 4 && ToLower(p[0]) != 'n'
    ensures SearchNoCase(s + UNKNOWN, p) + 4 != |s + UNKNOWN|
  {
    var f := s + UNKNOWN;
    SearchFirst(f, p);
    var i := SearchNoCase(f, p);
    if i >= 0 {
      OccurrenceAt(f, p, i, 0);
    }
  }

  /** No type starts or lies in the appended part. */
  lemma NoTypeBehind(s: string, j: nat)
    requires OccursAt(s + UNKNOWN, TYPE, j)
    ensures j + 6 <= |s|
  {
    if |s| < j {
      OccurrenceAt(s + UNKNOWN, TYPE, j, 0);
    } else if |s| < j + 6 {
      OccurrenceAt(s + UNKNOWN, TYPE, j, |s| - j);
    }
  }

  lemma OccursBefore(s: string, j: nat)
    requires OccursAt(s + UNKNOWN, TYPE, j) && j + 6 <= |s|
    ensures OccursAt(s, TYPE, j)
  {
    assert s[j..j + 6] == (s + UNKNOWN)[j..j + 6];
  }

  lemma NoTypeInUnknown(s: string)
    requires SearchNoCase(s, TYPE) < 0
    ensures SearchNoCase(s + UNKNOWN, TYPE) < 0
  {
    SearchFirst(s, TYPE);
    SearchFirst(s + UNKNOWN, TYPE);
    var j := SearchNoCase(s + UNKNOWN, TYPE);
    if j >= 0 {
      NoTypeBehind(s, j);
      OccursBefore(s, j);
    }
  }

  lemma GrowingGrows(s: string)
    requires Grows(s)
    ensures Readdress(s + UNKNOWN) == s + UNKNOWN + UNKNOWN
  {
    var f := s + UNKNOWN;
    NoTypeInUnknown(s);
    UnknownIsNoType(s, "PLMN");
    UnknownIsNoType(s, "IPv4");
    UnknownIsNoType(s, "IPv6");
    assert f[0] == '@' && IndexOf(f, '@') == 0;
    assert !IsDigit(f[0]) && !IsPhoneNumber(f);
  }

  /** Repairing an address once settles it, exactly when it is not of the growing family. */
  lemma RepairSettlesIff(s: string)
    ensures Readdress(Readdress(s)) == Readdress(s) <==> !Grows(s)
  {
    if !ValidAddress(s) {
      var i := SearchNoCase(s, TYPE);
      SearchFirst(s, TYPE);
      IndexOfFirst(s, '@');
      if i > 0 {
        TypePlaceKept(s, i);
        var f := s[..i] + PLMN;
        assert f[..i] == s[..i] && f[i..] == PLMN;
        assert s[..i] + s[i..] == s;
      } else if IsPhoneNumber(s) {
        if s == "" {
          EmptySettles();
          assert s + PLMN == PLMN;
        } else {
          PhoneSettles(s);
        }
      } else if Grows(s) {
        GrowingGrows(s);
      } else {
        AtSignEnds(s);
      }
    }
  }
}
