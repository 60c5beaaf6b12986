/** The regular expressions both request validators match against, written
    as predicates over ASCII strings. Each predicate accepts exactly the
    strings its ECMAScript pattern matches in full (`std::regex_match`). */
module Patterns {
  import opened CppStd

  predicate IsAsciiLetter(c: char)
  {
    'a' <= c <= 'z' || 'A' <= c <= 'Z'
  }

  predicate IsAlnum(c: char)
  {
    IsAsciiLetter(c) || IsDigit(c)
  }

  // ---------------------------------------------------------------- simple fields

  /** `^\d{5,6}$` */
  predicate IsShortCode(s: string)
  {
    5 <= |s| <= 6 && AllDigits(s)
  }

  /** `^[1-9]\d*$` */
  predicate IsPositiveAmount(s: string)
  {
    1 <= |s| && '1' <= s[0] <= '9' && AllDigits(s[1..])
  }

  /** `^2547\d{8}$` */
  predicate IsSafaricomPhone(s: string)
  {
    |s| == 12 && s[..4] == "2547" && AllDigits(s[4..])
  }

  /** `^254\d{9}$` */
  predicate IsKenyanPhone(s: string)
  {
    |s| == 12 && s[..3] == "254" && AllDigits(s[3..])
  }

  /** A positive amount is a run of digits whose value is at least 1. */
  lemma PositiveAmountValue(s: string)
    requires AllDigits(s)
    ensures IsPositiveAmount(s) <==> 1 <= |s| && s[0] != '0'
  {
    if 1 <= |s| {
      assert forall i :: 0 <= i < |s| - 1 ==> s[1..][i] == s[i + 1];
    }
  }

  /** Every `2547` number is a `254` number; `2541…` numbers are `254` numbers only. */
  lemma SafaricomPhoneIsKenyan(s: string)
    ensures IsSafaricomPhone(s) ==> IsKenyanPhone(s)
    ensures IsKenyanPhone(s) ==> (IsSafaricomPhone(s) <==> s[3] == '7')
  {
    if |s| == 12 && s[..3] == "254" {
      assert s[..4] == s[..3] + [s[3]];
      assert s[3..] == [s[3]] + s[4..];
    }
    if IsSafaricomPhone(s) {
      assert s[..3] == s[..4][..3];
    }
  }

  // ---------------------------------------------------------------- the callback URL

  /** `[a-zA-Z0-9\-]` */
  predicate IsLabelChar(c: char)
  {
    IsAlnum(c) || c == '-'
  }

  /** `[a-zA-Z0-9]([a-zA-Z0-9\-]{0,61}[a-zA-Z0-9])?`: 1 to 63 letters, digits
      and hyphens, beginning and ending with a letter or digit. */
  predicate IsLabel(l: string)
  {
    && 1 <= |l| <= 63
    && IsAlnum(l[0]) && IsAlnum(l[|l| - 1])
    && forall i :: 0 <= i < |l| ==> IsLabelChar(l[i])
  }

  /** `[a-zA-Z]{2,}` (no upper bound) or `[a-zA-Z]{2,limit}`. */
  predicate IsTld(t: string, limit: Option<nat>)
  {
    && 2 <= |t|
    && (limit.Some? ==> |t| <= limit.value)
    && forall i :: 0 <= i < |t| ==> IsAsciiLetter(t[i])
  }

  /** `[a-zA-Z0-9\-\._~:\/\?#\[\]@!$&'\(\)\*\+,;=]` */
  predicate IsPathChar(c: char)
  {
    IsAlnum(c) || c in "-._~:/?#[]@!$&'()*+,;="
  }

  predicate AllPathChars(p: string)
  {
    forall i :: 0 <= i < |p| ==> IsPathChar(p[i])
  }

  predicate AllLabels(labels: seq<string>)
  {
    forall k :: 0 <= k < |labels| ==> IsLabel(labels[k])
  }

  /** `(label\.)+` spelled out: every label followed by a dot. */
  function DottedLabels(labels: seq<string>): string
  {
    if |labels| == 0 then [] else labels[0] + "." + DottedLabels(labels[1..])
  }

  /** The text after the scheme that the pattern describes: the dotted
      labels, the top-level domain, a slash and the path. */
  function HostPath(labels: seq<string>, tld: string, path: string): string
  {
    DottedLabels(labels) + tld + "/" + path
  }

  /** The pieces the pattern is made of, each of its own shape. */
  predicate WellFormedParts(labels: seq<string>, tld: string, path: string, limit: Option<nat>)
  {
    1 <= |labels| && AllLabels(labels) && IsTld(tld, limit) && AllPathChars(path)
  }

  /** The language of the host-and-path part of the pattern. */
  ghost predicate InHostPathLanguage(hp: string, limit: Option<nat>)
  {
    exists labels, tld, path :: WellFormedParts(labels, tld, path, limit) && hp == HostPath(labels, tld, path)
  }

  /** The position of the first `c` in `s`, or |s| when there is none. */
  function IndexOf(s: string, c: char): (i: nat)
    ensures i <= |s|
    ensures i < |s| ==> s[i] == c
    ensures forall k :: 0 <= k < i ==> s[k] != c
  {
    if |s| == 0 then 0 else if s[0] == c then 0 else 1 + IndexOf(s[1..], c)
  }

  /** A host: a label, a dot, then either the top-level domain or another host. */
  predicate IsHost(h: string, limit: Option<nat>)
    decreases |h|
  {
    var i := IndexOf(h, '.');
    i < |h| && IsLabel(h[..i]) && (IsTld(h[i + 1..], limit) || IsHost(h[i + 1..], limit))
  }

  /** The matcher for the part after the scheme: a host up to the first
      slash, then path characters to the end. */
  predicate HostPathMatches(hp: string, limit: Option<nat>)
  {
    var i := IndexOf(hp, '/');
    i < |hp| && IsHost(hp[..i], limit) && AllPathChars(hp[i + 1..])
  }

  lemma {:induction false} IndexOfAfter(p: string, c: char, rest: string)
    requires forall k :: 0 <= k < |p| ==> p[k] != c
    ensures IndexOf(p + [c] + rest, c) == |p|
  {
    if |p| > 0 {
      assert (p + [c] + rest)[1..] == p[1..] + [c] + rest;
      IndexOfAfter(p[1..], c, rest);
    }
  }

  /** Hosts are made of label characters and dots only. */
  lemma {:induction false} HostChars(h: string, limit: Option<nat>)
    requires IsHost(h, limit)
    ensures forall k :: 0 <= k < |h| ==> IsLabelChar(h[k]) || h[k] == '.'
    decreases |h|
  {
    var i := IndexOf(h, '.');
    var rest := h[i + 1..];
    if !IsTld(rest, limit) {
      HostChars(rest, limit);
    }
    forall k | 0 <= k < |h| ensures IsLabelChar(h[k]) || h[k] == '.' {
      if k < i {
        assert h[k] == h[..i][k];
      } else if k > i {
        assert h[k] == rest[k - i - 1];
      }
    }
  }

  /** Labels and a top-level domain put together form a host. */
  lemma {:induction false} HostCompose(labels: seq<string>, tld: string, limit: Option<nat>)
    requires 1 <= |labels| && AllLabels(labels) && IsTld(tld, limit)
    ensures IsHost(DottedLabels(labels) + tld, limit)
    decreases |labels|
  {
    var h := DottedLabels(labels) + tld;
    var rest := DottedLabels(labels[1..]) + tld;
    assert h == labels[0] + "." + rest;
    assert forall k :: 0 <= k < |labels[0]| ==> labels[0][k] != '.' by {
      assert IsLabel(labels[0]);
    }
    IndexOfAfter(labels[0], '.', rest);
    assert h[..|labels[0]|] == labels[0];
    assert h[|labels[0]| + 1..] == rest;
    if |labels| == 1 {
      assert rest == tld;
    } else {
      HostCompose(labels[1..], tld, limit);
    }
  }

  /** Every host splits into labels and a top-level domain. */
  lemma {:induction false} HostDecompose(h: string, limit: Option<nat>) returns (labels: seq<string>, tld: string)
    requires IsHost(h, limit)
    ensures 1 <= |labels| && AllLabels(labels) && IsTld(tld, limit)
    ensures h == DottedLabels(labels) + tld
    decreases |h|
  {
    var i := IndexOf(h, '.');
    var first := h[..i];
    var rest := h[i + 1..];
    assert h == first + "." + rest;
    if IsTld(rest, limit) {
      labels, tld := [first], rest;
      assert DottedLabels(labels) == first + "." + DottedLabels([]);
    } else {
      var more;
      more, tld := HostDecompose(rest, limit);
      labels := [first] + more;
      assert labels[1..] == more;
    }
  }

  /** The matcher accepts exactly the language of the pattern. */
  lemma HostPathMatchesLanguage(hp: string, limit: Option<nat>)
    ensures HostPathMatches(hp, limit) <==> InHostPathLanguage(hp, limit)
  {
    if HostPathMatches(hp, limit) {
      var i := IndexOf(hp, '/');
      var labels, tld := HostDecompose(hp[..i], limit);
      var path := hp[i + 1..];
      assert hp == hp[..i] + "/" + path;
      assert WellFormedParts(labels, tld, path, limit) && hp == HostPath(labels, tld, path);
    }
    if InHostPathLanguage(hp, limit) {
      var labels, tld, path :| WellFormedParts(labels, tld, path, limit) && hp == HostPath(labels, tld, path);
      var h := DottedLabels(labels) + tld;
      HostCompose(labels, tld, limit);
      HostChars(h, limit);
      IndexOfAfter(h, '/', path);
      assert hp == h + ['/'] + path;
      assert hp[..|h|] == h;
      assert hp[|h| + 1..] == path;
    }
  }

  /** `^https:\/\/(label\.)+[a-zA-Z]{2,}\/path*$` (the header validator). */
  predicate IsHttpsCallbackUrl(u: string)
  {
    |u| >= 8 && u[..8] == "https://" && HostPathMatches(u[8..], None)
  }

  /** `^https?://(label\.)+[a-zA-Z]{2,6}/path*$` (the source-file validator). */
  predicate IsHttpCallbackUrl(u: string)
  {
    || (|u| >= 8 && u[..8] == "https://" && HostPathMatches(u[8..], Some(6)))
    || (|u| >= 7 && u[..7] == "http://" && HostPathMatches(u[7..], Some(6)))
  }

  /** The text a pattern with the given scheme describes, for some
      well-formed pieces. */
  ghost predicate InUrlLanguage(u: string, scheme: string, limit: Option<nat>)
  {
    exists labels, tld, path :: WellFormedParts(labels, tld, path, limit) && u == scheme + HostPath(labels, tld, path)
  }

  /** Matching the scheme and then the rest accepts exactly the language. */
  lemma SchemeUrlLanguage(u: string, scheme: string, limit: Option<nat>)
    ensures (|u| >= |scheme| && u[..|scheme|] == scheme && HostPathMatches(u[|scheme|..], limit))
            <==> InUrlLanguage(u, scheme, limit)
  {
    if |u| >= |scheme| && u[..|scheme|] == scheme {
      var hp := u[|scheme|..];
      assert u == scheme + hp;
      HostPathMatchesLanguage(hp, limit);
      if HostPathMatches(hp, limit) {
        var labels, tld, path :| WellFormedParts(labels, tld, path, limit) && hp == HostPath(labels, tld, path);
        assert u == scheme + HostPath(labels, tld, path);
      }
    }
    if InUrlLanguage(u, scheme, limit) {
      var labels, tld, path :| WellFormedParts(labels, tld, path, limit) && u == scheme + HostPath(labels, tld, path);
      var hp := HostPath(labels, tld, path);
      assert u[..|scheme|] == scheme && u[|scheme|..] == hp;
      HostPathMatchesLanguage(hp, limit);
    }
  }

  /** The header's URL check accepts exactly the strings its pattern describes. */
  lemma HttpsUrlLanguage(u: string)
    ensures IsHttpsCallbackUrl(u) <==> InUrlLanguage(u, "https://", None)
  {
    SchemeUrlLanguage(u, "https://", None);
  }

  /** The source-file URL check accepts exactly the strings its pattern
      describes, under either scheme. */
  lemma HttpUrlLanguage(u: string)
    ensures IsHttpCallbackUrl(u) <==> InUrlLanguage(u, "https://", Some(6)) || InUrlLanguage(u, "http://", Some(6))
  {
    SchemeUrlLanguage(u, "https://", Some(6));
    SchemeUrlLanguage(u, "http://", Some(6));
  }

  /** An https URL with no slash after "https://" is refused by both checks. */
  lemma UrlWithoutPathFails(u: string)
    requires |u| >= 8 && u[..8] == "https://"
    requires forall k :: 8 <= k < |u| ==> u[k] != '/'
    ensures !IsHttpsCallbackUrl(u) && !IsHttpCallbackUrl(u)
  {
    assert IndexOf(u[8..], '/') == |u[8..]|;
    assert u[..7] != "http://" by {
      assert u[4] == 's';
    }
  }

  /** Every URL the header check accepts whose top-level domain has at most
      six letters is accepted by the source-file check too. */
  lemma HttpsUrlWithShortTldIsHttpUrl(u: string)
    requires IsHttpsCallbackUrl(u)
    requires forall labels, tld, path :: u == "https://" + HostPath(labels, tld, path) ==> |tld| <= 6
    ensures IsHttpCallbackUrl(u)
  {
    HttpsUrlLanguage(u);
    var labels, tld, path :| WellFormedParts(labels, tld, path, None) && u == "https://" + HostPath(labels, tld, path);
    assert WellFormedParts(labels, tld, path, Some(6));
    HttpUrlLanguage(u);
  }

  /** A plain-http URL passes the source-file check and never the header check. */
  lemma PlainHttpOnlyInSourceFileCheck(labels: seq<string>, tld: string, path: string)
    requires WellFormedParts(labels, tld, path, Some(6))
    ensures IsHttpCallbackUrl("http://" + HostPath(labels, tld, path))
    ensures !IsHttpsCallbackUrl("http://" + HostPath(labels, tld, path))
  {
    var u := "http://" + HostPath(labels, tld, path);
    HttpUrlLanguage(u);
    assert u[4] == ':';
  }

  /** With a top-level domain of more than six letters, no split of a host
      leaves a top-level domain the source-file check allows. */
  lemma {:induction false} HostRejectsLongTld(labels: seq<string>, tld: string)
    requires 1 <= |labels| && AllLabels(labels)
    requires forall k :: 0 <= k < |tld| ==> tld[k] != '.'
    requires !IsTld(tld, Some(6))
    ensures !IsHost(DottedLabels(labels) + tld, Some(6))
    decreases |labels|
  {
    var h := DottedLabels(labels) + tld;
    var rest := DottedLabels(labels[1..]) + tld;
    assert h == labels[0] + "." + rest;
    assert forall k :: 0 <= k < |labels[0]| ==> labels[0][k] != '.' by {
      assert IsLabel(labels[0]);
    }
    IndexOfAfter(labels[0], '.', rest);
    assert h[..|labels[0]|] == labels[0];
    assert h[|labels[0]| + 1..] == rest;
    if |labels| == 1 {
      assert rest == tld;
      assert IndexOf(tld, '.') == |tld|;
    } else {
      assert rest == labels[1] + "." + (DottedLabels(labels[2..]) + tld);
      assert rest[|labels[1]|] == '.';
      HostRejectsLongTld(labels[1..], tld);
    }
  }

  /** The same, for the whole text after the scheme. */
  lemma HostPathRejectsLongTld(labels: seq<string>, tld: string, path: string)
    requires WellFormedParts(labels, tld, path, None) && |tld| > 6
    ensures !HostPathMatches(HostPath(labels, tld, path), Some(6))
  {
    var host := DottedLabels(labels) + tld;
    var hp := HostPath(labels, tld, path);
    HostCompose(labels, tld, None);
    HostChars(host, None);
    assert hp == host + ['/'] + path;
    IndexOfAfter(host, '/', path);
    assert hp[..|host|] == host;
    HostRejectsLongTld(labels, tld);
  }

  /** An https URL with a top-level domain of seven letters or more passes
      the header check and never the source-file check. */
  lemma LongTldOnlyInHeaderCheck(labels: seq<string>, tld: string, path: string)
    requires WellFormedParts(labels, tld, path, None) && |tld| > 6
    ensures IsHttpsCallbackUrl("https://" + HostPath(labels, tld, path))
    ensures !IsHttpCallbackUrl("https://" + HostPath(labels, tld, path))
  {
    var hp := HostPath(labels, tld, path);
    var u := "https://" + hp;
    HttpsUrlLanguage(u);
    assert u[..7] != "http://" by {
      assert u[4] == 's';
    }
    assert u[8..] == hp;
    HostPathRejectsLongTld(labels, tld, path);
  }

  /** The two checks differ: "http://example.com/cb" passes only the
      source-file check, "https://example.company/cb" only the header check. */
  lemma UrlChecksDiffer()
    ensures IsHttpCallbackUrl("http://" + HostPath(["example"], "com", "cb"))
    ensures !IsHttpsCallbackUrl("http://" + HostPath(["example"], "com", "cb"))
    ensures IsHttpsCallbackUrl("https://" + HostPath(["example"], "company", "cb"))
    ensures !IsHttpCallbackUrl("https://" + HostPath(["example"], "company", "cb"))
  {
    assert IsLabel("example");
    PlainHttpOnlyInSourceFileCheck(["example"], "com", "cb");
    LongTldOnlyInHeaderCheck(["example"], "company", "cb");
  }

  /** A positive amount is seven-bit text. */
  lemma PositiveAmountAscii(a: string)
    requires IsPositiveAmount(a)
    ensures IsAscii(a)
  {
    DigitsAreAscii(a[1..]);
    assert forall i :: 1 <= i < |a| ==> a[i] == a[1..][i - 1];
  }

  /** A `2547` number is seven-bit text. */
  lemma SafaricomPhoneAscii(s: string)
    requires IsSafaricomPhone(s)
    ensures IsAscii(s)
  {
    DigitsAreAscii(s[4..]);
    forall i | 0 <= i < |s| ensures (s[i] as int) < 0x80 {
      if i < 4 {
        assert s[i] == "2547"[i];
      } else {
        assert s[i] == s[4..][i - 4];
      }
    }
  }

  /** A URL the HTTPS pattern accepts is seven-bit text: the scheme, label
      characters and dots, the slash and path characters. */
  lemma HttpsUrlAscii(u: string)
    requires IsHttpsCallbackUrl(u)
    ensures IsAscii(u)
  {
    var hp := u[8..];
    var i := IndexOf(hp, '/');
    HostChars(hp[..i], None);
    forall k | 0 <= k < |u| ensures (u[k] as int) < 0x80 {
      if k < 8 {
        assert u[k] == "https://"[k];
      } else if k - 8 < i {
        assert u[k] == hp[..i][k - 8];
      } else if k - 8 > i {
        assert u[k] == hp[i + 1..][k - 8 - i - 1];
        assert IsPathChar(u[k]);
      }
    }
  }
}
