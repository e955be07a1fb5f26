/**
 * The two orders in which poses are listed: Python's `sorted` over the
 * images with the key `im.name` (strings compare code point by code point)
 * or `im.id`. `sorted` is stable, so images with equal keys keep the order
 * in which the dict holds them; the insertion sort below is stable in the
 * same way and is proved to return an ordered permutation of its input.
 */
module ImageSort {
  import opened ColmapFormat

  /** Python's `a <= b` on strings: lexicographic by code point, a proper prefix first. */
  predicate NameLeq(a: string, b: string)
    decreases |a|
  {
    if |a| == 0 then true
    else if |b| == 0 then false
    else if a[0] != b[0] then a[0] < b[0]
    else NameLeq(a[1..], b[1..])
  }

  lemma {:induction false} NameLeqTotal(a: string, b: string)
    ensures NameLeq(a, b) || NameLeq(b, a)
    decreases |a|
  {
    if |a| > 0 && |b| > 0 && a[0] == b[0] {
      NameLeqTotal(a[1..], b[1..]);
    }
  }

  lemma {:induction false} NameLeqTransitive(a: string, b: string, c: string)
    requires NameLeq(a, b) && NameLeq(b, c)
    ensures NameLeq(a, c)
    decreases |a|
  {
    if |a| > 0 && |b| > 0 && |c| > 0 && a[0] == b[0] && b[0] == c[0] {
      NameLeqTransitive(a[1..], b[1..], c[1..]);
    }
  }

  /** `key(a) <= key(b)` for the key the caller chose: the name, or the id. */
  predicate KeyLeq(byName: bool, a: Image, b: Image)
  {
    if byName then NameLeq(a.name, b.name) else a.id <= b.id
  }

  lemma KeyLeqTotal(byName: bool, a: Image, b: Image)
    ensures KeyLeq(byName, a, b) || KeyLeq(byName, b, a)
  {
    if byName {
      NameLeqTotal(a.name, b.name);
    }
  }

  lemma KeyLeqTransitive(byName: bool, a: Image, b: Image, c: Image)
    requires KeyLeq(byName, a, b) && KeyLeq(byName, b, c)
    ensures KeyLeq(byName, a, c)
  {
    if byName {
      NameLeqTransitive(a.name, b.name, c.name);
    }
  }

  ghost predicate Ordered(byName: bool, s: seq<Image>)
  {
    forall i, j :: 0 <= i < j < |s| ==> KeyLeq(byName, s[i], s[j])
  }

  /** No image of `s` has a smaller key than `y`. */
  ghost predicate AtMostAll(byName: bool, y: Image, s: seq<Image>)
  {
    forall j :: 0 <= j < |s| ==> KeyLeq(byName, y, s[j])
  }

  /** `x`, which came before every image of `s`, placed in front of the first image whose key is not smaller. */
  function InsertImage(byName: bool, x: Image, s: seq<Image>): (r: seq<Image>)
    ensures multiset(r) == multiset(s) + multiset{x}
  {
    if |s| == 0 then [x]
    else if KeyLeq(byName, x, s[0]) then [x] + s
    else
      assert s == [s[0]] + s[1..];
      [s[0]] + InsertImage(byName, x, s[1..])
  }

  /** A lower bound of `s` and of `x` stays a lower bound once `x` is inserted. */
  lemma {:induction false} InsertAtMostAll(byName: bool, y: Image, x: Image, s: seq<Image>)
    requires AtMostAll(byName, y, s) && KeyLeq(byName, y, x)
    ensures AtMostAll(byName, y, InsertImage(byName, x, s))
  {
    if |s| > 0 && !KeyLeq(byName, x, s[0]) {
      InsertAtMostAll(byName, y, x, s[1..]);
    }
  }

  /** Inserting into an ordered sequence keeps it ordered. */
  lemma {:induction false} InsertOrdered(byName: bool, x: Image, s: seq<Image>)
    requires Ordered(byName, s)
    ensures Ordered(byName, InsertImage(byName, x, s))
  {
    if |s| > 0 {
      if KeyLeq(byName, x, s[0]) {
        forall j | 0 < j < |s| ensures KeyLeq(byName, x, s[j]) {
          KeyLeqTransitive(byName, x, s[0], s[j]);
        }
      } else {
        KeyLeqTotal(byName, x, s[0]);
        InsertOrdered(byName, x, s[1..]);
        InsertAtMostAll(byName, s[0], x, s[1..]);
      }
    }
  }

  /** `sorted(images, key=...)`: a stable insertion sort. */
  function SortImages(byName: bool, s: seq<Image>): (r: seq<Image>)
    ensures multiset(r) == multiset(s)
  {
    if |s| == 0 then []
    else
      assert s == [s[0]] + s[1..];
      InsertImage(byName, s[0], SortImages(byName, s[1..]))
  }

  /** The sort returns its input in key order. */
  lemma {:induction false} SortOrdered(byName: bool, s: seq<Image>)
    ensures Ordered(byName, SortImages(byName, s))
  {
    if |s| > 0 {
      SortOrdered(byName, s[1..]);
      InsertOrdered(byName, s[0], SortImages(byName, s[1..]));
    }
  }

  /** The images of `s` whose key equals the key of `k`, in the order of `s`. */
  function WithKeyOf(byName: bool, k: Image, s: seq<Image>): (r: seq<Image>)
    ensures |r| <= |s|
  {
    if |s| == 0 then []
    else (if SameKey(byName, k, s[0]) then [s[0]] else []) + WithKeyOf(byName, k, s[1..])
  }

  predicate SameKey(byName: bool, a: Image, b: Image)
  {
    KeyLeq(byName, a, b) && KeyLeq(byName, b, a)
  }

  lemma WithKeyOfCons(byName: bool, k: Image, a: Image, t: seq<Image>)
    ensures WithKeyOf(byName, k, [a] + t) == (if SameKey(byName, k, a) then [a] else []) + WithKeyOf(byName, k, t)
  {
    assert ([a] + t)[1..] == t;
  }

  /** Inserting `x` puts it after no image with its own key. */
  lemma {:induction false} InsertStable(byName: bool, k: Image, x: Image, s: seq<Image>)
    ensures WithKeyOf(byName, k, InsertImage(byName, x, s)) == WithKeyOf(byName, k, [x] + s)
  {
    if |s| > 0 && !KeyLeq(byName, x, s[0]) {
      var s0, t := s[0], s[1..];
      assert s == [s0] + t;
      var hx: seq<Image> := if SameKey(byName, k, x) then [x] else [];
      var h0: seq<Image> := if SameKey(byName, k, s0) then [s0] else [];
      InsertStable(byName, k, x, t);
      WithKeyOfCons(byName, k, s0, InsertImage(byName, x, t));
      WithKeyOfCons(byName, k, x, t);
      WithKeyOfCons(byName, k, s0, t);
      WithKeyOfCons(byName, k, x, s);
      if SameKey(byName, k, s0) && SameKey(byName, k, x) {
        KeyLeqTransitive(byName, x, k, s0);
      }
      assert hx == [] || h0 == [];
      SwapOneEmpty(h0, hx, WithKeyOf(byName, k, t));
      calc {
        WithKeyOf(byName, k, InsertImage(byName, x, s));
        h0 + WithKeyOf(byName, k, InsertImage(byName, x, t));
        h0 + (hx + WithKeyOf(byName, k, t));
        hx + (h0 + WithKeyOf(byName, k, t));
        WithKeyOf(byName, k, [x] + s);
      }
    }
  }

  lemma SwapOneEmpty(a: seq<Image>, b: seq<Image>, w: seq<Image>)
    requires a == [] || b == []
    ensures a + (b + w) == b + (a + w)
  {
    if a == [] {
      assert a + (b + w) == b + w == b + (a + w);
    } else {
      assert b + w == w && a + (b + w) == a + w == b + (a + w);
    }
  }

  /** `sorted` is stable: images with equal keys keep the order they had. */
  lemma {:induction false} SortStable(byName: bool, k: Image, s: seq<Image>)
    ensures WithKeyOf(byName, k, SortImages(byName, s)) == WithKeyOf(byName, k, s)
  {
    if |s| > 0 {
      SortStable(byName, k, s[1..]);
      InsertStable(byName, k, s[0], SortImages(byName, s[1..]));
      WithKeyOfCons(byName, k, s[0], SortImages(byName, s[1..]));
      WithKeyOfCons(byName, k, s[0], s[1..]);
      assert s == [s[0]] + s[1..];
    }
  }
}
