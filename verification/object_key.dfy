/** The storage key every upload path derives from the original file name:
    `{folder}/{timestamp}-{random}.{ext}`. */
module ObjectKey {
  import opened Text
  import opened Decimal

  /** The folder used when the caller names none. */
  const DefaultFolder: string := "uploads"

  /** `fileName.split(".").pop()`: the text after the last dot, or the whole
      name when it has none. */
  function Extension(fileName: string): (ext: string)
    ensures '.' !in ext
    ensures |ext| <= |fileName| && fileName[|fileName| - |ext|..] == ext
    ensures '.' !in fileName ==> ext == fileName
    ensures '.' in fileName ==> fileName[|fileName| - |ext| - 1] == '.'
  {
    LastSegment(fileName, '.')
  }

  /** What `Math.random().toString(36).substring(7)` yields: base-36 digits
      only (the `0.` prefix and the first five digits are cut off). */
  predicate IsBase36Token(s: string) {
    forall i :: 0 <= i < |s| ==> '0' <= s[i] <= '9' || 'a' <= s[i] <= 'z'
  }

  /** `${folder}/${timestamp}-${randomStr}.${fileExtension}`. */
  function Key(folder: string, timestamp: nat, token: string, fileName: string): string {
    folder + "/" + NatToString(timestamp) + "-" + token + "." + Extension(fileName)
  }

  /** `${publicBaseUrl}/${key}`: where a stored object can be read. */
  function PublicUrl(publicBaseUrl: string, key: string): string {
    publicBaseUrl + "/" + key
  }

  /** Within one folder, a key determines the timestamp, the random token and
      the extension it was built from: keys built from distinct
      (timestamp, token) pairs never collide. */
  lemma KeyInjective(folder: string, t1: nat, r1: string, n1: string, t2: nat, r2: string, n2: string)
    requires IsBase36Token(r1) && IsBase36Token(r2)
    requires Key(folder, t1, r1, n1) == Key(folder, t2, r2, n2)
    ensures t1 == t2 && r1 == r2 && Extension(n1) == Extension(n2)
  {
    var d1, d2 := NatToString(t1), NatToString(t2);
    assert '-' !in d1 && '-' !in d2 by {
      assert AllDigits(d1) && AllDigits(d2);
    }
    assert '.' !in r1 && '.' !in r2;
    KeyFieldsDetermined(folder, d1, r1, Extension(n1), d2, r2, Extension(n2));
    NatToStringRoundTrip(t1);
    NatToStringRoundTrip(t2);
  }

  lemma KeyFieldsDetermined(folder: string, d1: string, r1: string, e1: string, d2: string, r2: string, e2: string)
    requires '-' !in d1 && '-' !in d2 && '.' !in r1 && '.' !in r2
    requires folder + "/" + d1 + "-" + r1 + "." + e1 == folder + "/" + d2 + "-" + r2 + "." + e2
    ensures d1 == d2 && r1 == r2 && e1 == e2
  {
    var k1 := folder + "/" + d1 + "-" + r1 + "." + e1;
    var k2 := folder + "/" + d2 + "-" + r2 + "." + e2;
    var p := |folder| + 1;
    assert k1 == (folder + "/") + (d1 + "-" + (r1 + "." + e1));
    assert k2 == (folder + "/") + (d2 + "-" + (r2 + "." + e2));
    assert k1[p..] == d1 + "-" + (r1 + "." + e1);
    assert k2[p..] == d2 + "-" + (r2 + "." + e2);
    CutAtFirst(d1, r1 + "." + e1, d2, r2 + "." + e2, '-');
    CutAtFirst(r1, e1, r2, e2, '.');
  }
}
