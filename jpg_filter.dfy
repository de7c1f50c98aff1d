/** The file-name test the resizer applies to every directory entry, and
    the selection it induces on a directory listing. */
module JpgFilter {

  /** `g_str_has_suffix`: the last |suffix| characters of `s` are `suffix`. */
  predicate HasSuffix(s: string, suffix: string)
  {
    |suffix| <= |s| && s[|s| - |suffix|..] == suffix
  }

  /** A name is processed when it ends in ".jpg" or ".JPG"; no other
      casing of the extension is recognised. */
  predicate IsJpgName(name: string)
    ensures IsJpgName(name) <==> |name| >= 4 && name[|name| - 4..] in {".jpg", ".JPG"}
  {
    HasSuffix(name, ".jpg") || HasSuffix(name, ".JPG")
  }

  lemma SuffixOfConcat(stem: string, suffix: string)
    ensures (stem + suffix)[|stem + suffix| - |suffix|..] == suffix
  {
    assert (stem + suffix)[|stem|..] == suffix;
  }

  /** The suffix test holds exactly of the names built by appending the
      suffix to some stem. */
  lemma {:induction false} HasSuffixIff(s: string, suffix: string)
    ensures HasSuffix(s, suffix) <==> exists stem :: stem + suffix == s
  {
    if HasSuffix(s, suffix) {
      var stem := s[..|s| - |suffix|];
      assert stem + suffix == s;
    }
    if exists stem :: stem + suffix == s {
      var stem :| stem + suffix == s;
      SuffixOfConcat(stem, suffix);
    }
  }

  /** Names ending in one of the two accepted extensions are selected; the
      other casings of "jpg" and other image extensions are not. */
  lemma {:induction false} JpgNameExamples(stem: string)
    ensures IsJpgName(stem + ".jpg") && IsJpgName(stem + ".JPG")
    ensures !IsJpgName(stem + ".Jpg") && !IsJpgName(stem + ".jPG")
    ensures !IsJpgName(stem + ".jpeg") && !IsJpgName(stem + ".JPEG")
    ensures !IsJpgName(stem + ".png") && !IsJpgName(stem + ".txt")
  {
    SuffixOfConcat(stem, ".jpg");
    SuffixOfConcat(stem, ".JPG");
    SuffixOfConcat(stem, ".Jpg");
    SuffixOfConcat(stem, ".jPG");
    Last4(stem, ".jpeg");
    Last4(stem, ".JPEG");
    SuffixOfConcat(stem, ".png");
    SuffixOfConcat(stem, ".txt");
  }

  lemma Last4(stem: string, ext: string)
    requires |ext| >= 4
    ensures (stem + ext)[|stem + ext| - 4..] == ext[|ext| - 4..]
  {
    assert (stem + ext)[|stem + ext| - 4..] == (stem + ext)[|stem| + |ext| - 4..];
  }

  /** The selected names of a listing, in listing order. */
  function Selected(names: seq<string>): seq<string>
  {
    if names == [] then []
    else
      var last := names[|names| - 1];
      Selected(names[..|names| - 1]) + (if IsJpgName(last) then [last] else [])
  }

  /** The indices, in the listing, of the selected names. */
  function Positions(names: seq<string>): seq<nat>
  {
    if names == [] then []
    else
      var k := |names| - 1;
      Positions(names[..k]) + (if IsJpgName(names[k]) then [k] else [])
  }

  lemma {:induction false} PositionsLength(names: seq<string>)
    ensures |Positions(names)| == |Selected(names)| <= |names|
  {
    if names != [] {
      PositionsLength(names[..|names| - 1]);
    }
  }

  /** The k-th selected name sits in the listing at the k-th position. */
  lemma {:induction false} PositionsAt(names: seq<string>)
    ensures |Positions(names)| == |Selected(names)|
    ensures forall k :: 0 <= k < |Positions(names)| ==>
      Positions(names)[k] < |names| && names[Positions(names)[k]] == Selected(names)[k]
  {
    PositionsLength(names);
    if names != [] {
      var k := |names| - 1;
      var init := names[..k];
      PositionsAt(init);
      forall j | 0 <= j < k ensures init[j] == names[j] { }
    }
  }

  /** The positions increase strictly: selection keeps listing order. */
  lemma {:induction false} PositionsIncrease(names: seq<string>)
    ensures forall k :: 0 <= k < |Positions(names)| ==> Positions(names)[k] < |names|
    ensures forall k1, k2 :: 0 <= k1 < k2 < |Positions(names)| ==>
      Positions(names)[k1] < Positions(names)[k2]
  {
    if names != [] {
      PositionsIncrease(names[..|names| - 1]);
    }
  }

  /** The k-th selected entry sits at index k or later. */
  lemma {:induction false} PositionsAtLeastRank(names: seq<string>)
    ensures forall k :: 0 <= k < |Positions(names)| ==> Positions(names)[k] >= k
  {
    if names != [] {
      var m := |names| - 1;
      PositionsAtLeastRank(names[..m]);
      PositionsLength(names[..m]);
    }
  }

  /** An index is a position exactly when the name there is selected. */
  lemma {:induction false} PositionsComplete(names: seq<string>)
    ensures forall j :: 0 <= j < |names| ==> (IsJpgName(names[j]) <==> j in Positions(names))
  {
    if names != [] {
      var k := |names| - 1;
      var init := names[..k];
      PositionsComplete(init);
      PositionsIncrease(init);
      forall j | 0 <= j < k ensures init[j] == names[j] { }
    }
  }

  /** All names that are selected and only those, each at the index of the
      listing it came from, in increasing order. */
  lemma PositionsOfSelected(names: seq<string>)
    ensures |Positions(names)| == |Selected(names)| <= |names|
    ensures forall k :: 0 <= k < |Positions(names)| ==>
      Positions(names)[k] < |names| && names[Positions(names)[k]] == Selected(names)[k]
    ensures forall k1, k2 :: 0 <= k1 < k2 < |Positions(names)| ==>
      Positions(names)[k1] < Positions(names)[k2]
    ensures forall j :: 0 <= j < |names| ==> (IsJpgName(names[j]) <==> j in Positions(names))
  {
    PositionsLength(names);
    PositionsAt(names);
    PositionsIncrease(names);
    PositionsComplete(names);
  }

  /** Every selected name occurs in the listing and is a JPEG name, and
      every such name of the listing is selected. */
  lemma {:induction false} SelectedMembers(names: seq<string>, x: string)
    ensures x in Selected(names) <==> x in names && IsJpgName(x)
  {
    if names != [] {
      var k := |names| - 1;
      SelectedMembers(names[..k], x);
      assert names == names[..k] + [names[k]];
    }
  }

  /** Selection distributes over concatenation of listings. */
  lemma {:induction false} SelectedAppend(a: seq<string>, b: seq<string>)
    ensures Selected(a + b) == Selected(a) + Selected(b)
  {
    if b == [] {
      assert a + b == a;
    } else {
      var k := |b| - 1;
      SelectedAppend(a, b[..k]);
      assert (a + b)[..|a + b| - 1] == a + b[..k];
    }
  }

  /** Nothing is dropped exactly when every name is a JPEG name. */
  lemma {:induction false} SelectedAll(names: seq<string>)
    ensures |Selected(names)| == |names| <==> forall j :: 0 <= j < |names| ==> IsJpgName(names[j])
  {
    PositionsLength(names);
    if names != [] {
      var k := |names| - 1;
      var init := names[..k];
      SelectedAll(init);
      PositionsLength(init);
      forall j | 0 <= j < k ensures init[j] == names[j] { }
    }
  }

  /** The last selected entry, at position `p`, is followed only by names
      that are not selected, and it is the n-th of n selected entries
      exactly when every entry up to it is selected. */
  lemma {:induction false} LastSelected(names: seq<string>)
    requires |Selected(names)| > 0
    ensures |Positions(names)| == |Selected(names)|
    ensures var p := Positions(names)[|Selected(names)| - 1];
      && p < |names| && IsJpgName(names[p])
      && (forall j :: p < j < |names| ==> !IsJpgName(names[j]))
      && (p + 1 == |Selected(names)| <==> forall j :: 0 <= j <= p ==> IsJpgName(names[j]))
  {
    PositionsLength(names);
    var k := |names| - 1;
    var init := names[..k];
    if IsJpgName(names[k]) {
      assert Positions(names)[|Selected(names)| - 1] == k;
      SelectedAll(names);
    } else {
      assert Positions(names) == Positions(init);
      assert Selected(names) == Selected(init);
      LastSelected(init);
      forall j | 0 <= j < k ensures init[j] == names[j] { }
    }
  }
}
