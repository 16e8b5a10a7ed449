/** `Thumbnail.url`: the image address of a hero, forced onto HTTPS. */
module Thumbnails {
  import opened Text

  datatype Thumbnail = Thumbnail(path: string, ext: string)

  const Http := "http://"
  const Https := "https://"

  /** The text `Thumbnail.url` hands to `URL(string:)`: `path.extension` with `http://` upgraded. */
  function UrlString(t: Thumbnail): (r: string)
    ensures Free(r, Http)
  {
    UpgradeRemovesHttp(t.path + "." + t.ext);
    ReplaceAll(t.path + "." + t.ext, Http, Https)
  }

  /** After the rewrite no `http://` is left, not even one formed across a replacement. */
  lemma {:induction false} UpgradeRemovesHttp(s: string)
    ensures Free(ReplaceAll(s, Http, Https), Http)
    decreases |s|
  {
    var r := ReplaceAll(s, Http, Https);
    if |s| < |Http| {
      assert r == s;
    } else if s[..|Http|] == Http {
      var t := ReplaceAll(s[|Http|..], Http, Https);
      UpgradeRemovesHttp(s[|Http|..]);
      assert r == Https + t;
      forall i | 0 <= i <= |r| - |Http| ensures !OccursAt(r, Http, i) {
        if i >= |Https| {
          assert r[i..i + |Http|] == t[i - |Https|..i - |Https| + |Http|];
          assert !OccursAt(t, Http, i - |Https|);
        } else if i == 0 {
          assert r[i..i + |Http|][4] == 's';
        } else {
          assert r[i..i + |Http|][0] == Https[i] != 'h';
        }
      }
    } else {
      var t := ReplaceAll(s[1..], Http, Https);
      UpgradeRemovesHttp(s[1..]);
      assert r == [s[0]] + t;
      forall i | 0 <= i <= |r| - |Http| ensures !OccursAt(r, Http, i) {
        if i >= 1 {
          assert r[i..i + |Http|] == t[i - 1..i - 1 + |Http|];
          assert !OccursAt(t, Http, i - 1);
        } else {
          // If `t` started with "ttp://", which holds no 'h', then `s` itself started with "http://".
          PrefixWithoutH(s[1..], 6);
          assert t[..6] == r[1..7];
          assert forall k :: 0 <= k < 6 ==> t[..6][k] == t[k];
          assert s[..|Http|] == [s[0]] + s[1..][..6];
        }
      }
    }
  }

  /** Where the rewritten text shows no 'h', it is the original text unchanged. */
  lemma {:induction false} PrefixWithoutH(s: string, n: nat)
    ensures n <= |ReplaceAll(s, Http, Https)|
            && (forall k :: 0 <= k < n ==> ReplaceAll(s, Http, Https)[k] != 'h')
            ==> n <= |s| && s[..n] == ReplaceAll(s, Http, Https)[..n]
    decreases n
  {
    var r := ReplaceAll(s, Http, Https);
    if n > 0 && |s| >= |Http| && s[..|Http|] != Http {
      var t := ReplaceAll(s[1..], Http, Https);
      assert r == [s[0]] + t;
      PrefixWithoutH(s[1..], n - 1);
      if n <= |r| && forall k :: 0 <= k < n ==> r[k] != 'h' {
        assert forall k :: 0 <= k < n - 1 ==> t[k] == r[k + 1];
        assert s[..n] == [s[0]] + s[1..][..n - 1];
        assert r[..n] == [s[0]] + t[..n - 1];
      }
    } else if n > 0 && |s| >= |Http| {
      // The rewrite starts with the 'h' of "https://".
      assert r == Https + ReplaceAll(s[|Http|..], Http, Https);
      assert r[0] == 'h';
    }
  }

  /** A path that starts with `http://` gives an address that starts with `https://`. */
  lemma HttpPathUpgraded(t: Thumbnail)
    requires |Http| <= |t.path| && t.path[..|Http|] == Http
    ensures |Https| <= |UrlString(t)| && UrlString(t)[..|Https|] == Https
  {
    var s := t.path + "." + t.ext;
    assert s[..|Http|] == t.path[..|Http|];
  }

  /** Text with no `http://` in it, an `https` address for one, is passed through unchanged. */
  lemma SecureUrlUnchanged(t: Thumbnail)
    requires Free(t.path + "." + t.ext, Http)
    ensures UrlString(t) == t.path + "." + t.ext
  {
    ReplaceAllFree(t.path + "." + t.ext, Http, Https);
  }
}
