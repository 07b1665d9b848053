/**
 * The object key under which the cropper stores a face crop
 * (contrainer_utils/contrainer_utils.py): `face_`, the original key with one trailing
 * `.jpg` removed, `_`, a random number from 0 to 100000 in decimal, and `.jpg`.
 */
module FaceKeys {
  import opened Wrappers
  import opened DecimalText

  const Jpg: string := ".jpg"
  const Prefix: string := "face_"
  const MaxSuffix: int := 100000

  predicate EndsWithJpg(k: string) {
    |k| >= |Jpg| && k[|k| - |Jpg|..] == Jpg
  }

  /** Python's `k.removesuffix(".jpg")`: drops one trailing ".jpg" if there is one. */
  function StripJpg(k: string): (r: string)
    ensures EndsWithJpg(k) ==> r + Jpg == k
    ensures !EndsWithJpg(k) ==> r == k
  {
    if EndsWithJpg(k) then k[..|k| - |Jpg|] else k
  }

  /** At most one suffix is removed: appending ".jpg" to any key and stripping gives the key back. */
  lemma StripJpgUndoesAppend(k: string)
    ensures StripJpg(k + Jpg) == k
  {
    assert (k + Jpg)[|k + Jpg| - |Jpg|..] == Jpg;
    assert (k + Jpg)[..|k + Jpg| - |Jpg|] == k;
  }

  /** The crop key for object key `k` and the random draw `n` (0 <= n <= 100000). */
  function FaceKey(k: string, n: int): (r: string)
    requires 0 <= n <= MaxSuffix
    ensures |r| >= |Prefix| + 1 + 1 + |Jpg|
    ensures r[..|Prefix|] == Prefix && EndsWithJpg(r)
  {
    var r := Prefix + StripJpg(k) + "_" + Decimal(n) + Jpg;
    assert r[..|Prefix|] == Prefix;
    assert r[|r| - |Jpg|..] == Jpg;
    r
  }

  /** The position of the last `c` in `s`, if any. */
  function LastIndexOf(s: string, c: char): (r: Option<nat>)
    ensures r.None? ==> c !in s
    ensures r.Some? ==> r.value < |s| && s[r.value] == c && c !in s[r.value + 1..]
    decreases |s|
  {
    if s == [] then None
    else if s[|s| - 1] == c then Some(|s| - 1)
    else
      var r := LastIndexOf(s[..|s| - 1], c);
      assert s == s[..|s| - 1] + [s[|s| - 1]];
      assert r.Some? ==> s[r.value + 1..] == s[..|s| - 1][r.value + 1..] + [s[|s| - 1]];
      r
  }

  /**
   * Reads a crop key back into its stem and its number: the inverse of FaceKey. The number
   * is the digits after the last `_` before the ".jpg" suffix.
   */
  function ParseFaceKey(key: string): Option<(string, nat)>
  {
    if |key| < |Prefix| + |Jpg| || key[..|Prefix|] != Prefix || !EndsWithJpg(key) then None
    else
      var mid := key[|Prefix|..|key| - |Jpg|];
      match LastIndexOf(mid, '_')
      case None => None
      case Some(i) =>
        var digits := mid[i + 1..];
        if digits != [] && AllDigits(digits) then Some((mid[..i], DigitsValue(digits)))
        else None
  }

  /** A decimal string never holds an underscore. */
  lemma NoUnderscoreInDecimal(n: nat)
    ensures '_' !in Decimal(n)
  {
    var d := Decimal(n);
    forall i | 0 <= i < |d| ensures d[i] != '_' {
      assert IsDigit(d[i]);
    }
  }

  /** The last `c` in `a + [c] + b` is the one after `a` when `b` holds no `c`. */
  lemma {:induction false} LastIndexOfAfter(a: string, c: char, b: string)
    requires c !in b
    ensures LastIndexOf(a + [c] + b, c) == Some(|a|)
    decreases |b|
  {
    var s := a + [c] + b;
    if b != [] {
      assert s[|s| - 1] == b[|b| - 1];
      assert s[..|s| - 1] == a + [c] + b[..|b| - 1];
      LastIndexOfAfter(a, c, b[..|b| - 1]);
    }
  }

  /** Parsing a crop key recovers the stripped object key and the random number. */
  lemma ParseFaceKeyRoundTrip(k: string, n: int)
    requires 0 <= n <= MaxSuffix
    ensures ParseFaceKey(FaceKey(k, n)) == Some((StripJpg(k), n))
  {
    var stem, d := StripJpg(k), Decimal(n);
    var key := FaceKey(k, n);
    assert key == Prefix + (stem + "_" + d) + Jpg;
    var mid := key[|Prefix|..|key| - |Jpg|];
    assert mid == stem + "_" + d;
    NoUnderscoreInDecimal(n);
    LastIndexOfAfter(stem, '_', d);
    assert mid[|stem| + 1..] == d;
    assert mid[..|stem|] == stem;
    DecimalRoundTrip(n);
  }

  /** Two crop keys are equal only when their stripped keys and their numbers are. */
  lemma FaceKeyInjective(k1: string, n1: int, k2: string, n2: int)
    requires 0 <= n1 <= MaxSuffix && 0 <= n2 <= MaxSuffix
    requires FaceKey(k1, n1) == FaceKey(k2, n2)
    ensures StripJpg(k1) == StripJpg(k2) && n1 == n2
  {
    ParseFaceKeyRoundTrip(k1, n1);
    ParseFaceKeyRoundTrip(k2, n2);
  }

  /** For "photo1.jpg" the key is "face_photo1_<n>.jpg". */
  lemma Photo1Key(n: int)
    requires 0 <= n <= MaxSuffix
    ensures FaceKey("photo1.jpg", n) == "face_photo1_" + Decimal(n) + ".jpg"
  {
    assert StripJpg("photo1.jpg") == "photo1";
  }

  /** A key without the ".jpg" suffix is kept whole; "a.jpg.jpg" loses only one suffix. */
  lemma StripJpgExamples()
    ensures StripJpg("photo.png") == "photo.png"
    ensures StripJpg("a.jpg.jpg") == "a.jpg"
    ensures StripJpg(".jpg") == ""
  {
    StripJpgUndoesAppend("a.jpg");
    StripJpgUndoesAppend("");
    assert "a.jpg" + Jpg == "a.jpg.jpg";
  }
}
