/**
 * Extracting eero network IDs from the URLs the API returns. The source uses
 * Python regular expressions; here each pattern is an explicit scan.
 *   - `id_from_url` (eero.py, device_tracker.py, the legacy tracker and
 *     eero_tracker_instantiate.py): `^[0-9]+$`, then `/([0-9]+)$`.
 *   - the network filter of device_tracker.py: `/networks/(\d+)`, then `int`.
 */
module Urls {
  import opened Wrappers
  import opened Strings

  // ---------------------------------------------------------------------------
  // id_from_url

  /**
   * The part of `s` that a Python `$` anchor closes: `$` matches at the very
   * end and also just before a final newline.
   */
  function BeforeFinalNewline(s: string): (t: string)
    ensures t == s || t + "\n" == s
    ensures |t| > 0 ==> t[|t| - 1] == s[|t| - 1]
  {
    if |s| > 0 && s[|s| - 1] == '\n' then s[..|s| - 1] else s
  }

  /** The position of the last `c` in `s`, if there is one. */
  function LastIndexOf(s: string, c: char): (r: Option<nat>)
    ensures r.Some? ==> r.value < |s| && s[r.value] == c && forall i :: r.value < i < |s| ==> s[i] != c
    ensures r.None? ==> c !in s
    decreases |s|
  {
    if s == [] then None
    else if s[|s| - 1] == c then Some(|s| - 1)
    else LastIndexOf(s[..|s| - 1], c)
  }

  /** `t` ends in a `/` followed by one or more digits. */
  ghost predicate EndsInSlashDigits(t: string) {
    exists k :: 0 <= k < |t| - 1 && t[k] == '/' && AllDigits(t[k + 1..])
  }

  /**
   * `id_from_url`: a string that is all digits is itself the ID; otherwise the
   * ID is the run of digits after the final `/` when the string ends there;
   * otherwise there is none. The ID stays a string.
   */
  function IdFromUrl(idOrUrl: string): Option<string> {
    var t := BeforeFinalNewline(idOrUrl);
    if |t| > 0 && AllDigits(t) then Some(t)
    else
      match LastIndexOf(t, '/')
      case None => None
      case Some(k) => if k + 1 < |t| && AllDigits(t[k + 1..]) then Some(t[k + 1..]) else None
  }

  /**
   * What `id_from_url` finds: a non-empty run of digits that is the whole
   * string (before a final newline) or ends it right after a `/`; and it
   * finds nothing exactly when there is no such run.
   */
  lemma IdFromUrlFinds(idOrUrl: string)
    ensures var r := IdFromUrl(idOrUrl);
            r.Some? ==> |r.value| > 0 && AllDigits(r.value)
    ensures var r := IdFromUrl(idOrUrl);
            var t := BeforeFinalNewline(idOrUrl);
            r.Some? ==> t == r.value || (|t| > |r.value| && t[|t| - |r.value| - 1] == '/' && t[|t| - |r.value|..] == r.value)
    ensures var t := BeforeFinalNewline(idOrUrl);
            IdFromUrl(idOrUrl).None? <==> !(|t| > 0 && AllDigits(t)) && !EndsInSlashDigits(t)
  {
    var t := BeforeFinalNewline(idOrUrl);
    if !(|t| > 0 && AllDigits(t)) && LastIndexOf(t, '/').Some? {
      var k := LastIndexOf(t, '/').value;
      if !(k + 1 < |t| && AllDigits(t[k + 1..])) {
        forall j | 0 <= j < |t| - 1 && t[j] == '/' ensures !AllDigits(t[j + 1..]) {
          if j < k {
            assert t[j + 1..][k - j - 1] == t[k];
          } else {
            assert j == k;
          }
        }
      }
    }
  }

  /** An all-digit string is its own ID, with or without a final newline. */
  lemma IdOfDigits(d: string)
    requires |d| > 0 && AllDigits(d)
    ensures IdFromUrl(d) == Some(d)
    ensures IdFromUrl(d + "\n") == Some(d)
  {
    assert (d + "\n")[..|d|] == d;
  }

  /** The digits after the final `/` of a URL are its ID: `IdFromUrl("…/networks/1234") == Some("1234")`. */
  lemma IdOfUrl(base: string, d: string)
    requires |d| > 0 && AllDigits(d)
    ensures IdFromUrl(base + "/" + d) == Some(d)
  {
    var s := base + "/" + d;
    assert BeforeFinalNewline(s) == s by { assert s[|s| - 1] == d[|d| - 1]; }
    assert !AllDigits(s) by { assert s[|base|] == '/'; }
    assert s[|base| + 1..] == d;
    assert forall i :: |base| < i < |s| ==> s[i] != '/' by {
      assert forall i :: |base| < i < |s| ==> s[i] == d[i - |base| - 1];
    }
  }

  // ---------------------------------------------------------------------------
  // /networks/(\d+)

  const NetworksMarker: string := "/networks/"

  /** At `i`, `s` holds `/networks/` followed by a digit: a match of `/networks/(\d+)` starts there. */
  predicate MarkerAt(s: string, i: int) {
    0 <= i && i + |NetworksMarker| < |s| && s[i..i + |NetworksMarker|] == NetworksMarker
    && IsDigit(s[i + |NetworksMarker|])
  }

  /** The leftmost position at or after `from` where a match starts, as `re.search` finds it. */
  function FirstMarker(s: string, from: nat): (r: Option<nat>)
    ensures r.Some? ==> r.value + |NetworksMarker| < |s|
    decreases |s| - from
  {
    if from + |NetworksMarker| >= |s| then None
    else if MarkerAt(s, from) then Some(from)
    else FirstMarker(s, from + 1)
  }

  lemma {:induction false} FirstMarkerFinds(s: string, from: nat)
    ensures var r := FirstMarker(s, from);
            r.Some? ==> from <= r.value && MarkerAt(s, r.value) && forall i :: from <= i < r.value ==> !MarkerAt(s, i)
    ensures FirstMarker(s, from).None? ==> forall i :: from <= i ==> !MarkerAt(s, i)
    decreases |s| - from
  {
    if from + |NetworksMarker| < |s| && !MarkerAt(s, from) {
      FirstMarkerFinds(s, from + 1);
    }
  }

  /** The longest run of digits starting at `k`: what the greedy `\d+` takes. */
  function DigitRun(s: string, k: nat): (d: string)
    requires k <= |s|
    ensures AllDigits(d)
    decreases |s| - k
  {
    if k < |s| && IsDigit(s[k]) then [s[k]] + DigitRun(s, k + 1) else []
  }

  /**
   * The network filter's ID: `int` of the digits of the first
   * `/networks/<digits>` in the URL; none when the URL has no such part
   * (where the source's `match.group` raises).
   */
  function NetworkIdFromUrl(url: string): Option<nat> {
    match FirstMarker(url, 0)
    case None => None
    case Some(i) => Some(DecimalValue(DigitRun(url, i + |NetworksMarker|)))
  }

  /** The network filter finds an ID exactly when `/networks/` followed by a digit occurs in the URL. */
  lemma NetworkIdFound(url: string)
    ensures NetworkIdFromUrl(url).Some? <==> exists i :: MarkerAt(url, i)
  {
    FirstMarkerFinds(url, 0);
  }

  /** No `/` in `p` is followed by an `n`, so no match can start inside `p`. */
  predicate NoMarkerStart(p: string) {
    forall i :: 0 <= i < |p| && p[i] == '/' ==> i + 1 < |p| && p[i + 1] != 'n'
  }

  /** No match starts inside a prefix `p` without marker starts. */
  lemma NoMarkerInPrefix(p: string, s: string)
    requires NoMarkerStart(p) && |p| <= |s| && s[..|p|] == p
    ensures forall i :: 0 <= i < |p| ==> !MarkerAt(s, i)
  {
    forall i | 0 <= i < |p| ensures !MarkerAt(s, i) {
      if i + |NetworksMarker| < |s| {
        assert NetworksMarker[0] == '/' && NetworksMarker[1] == 'n';
        assert s[i..i + |NetworksMarker|][0] == s[i] == p[i];
        if p[i] == '/' {
          assert s[i..i + |NetworksMarker|][1] == s[i + 1] == p[i + 1];
        }
      }
    }
  }

  /** The ID written after `/networks/` is read back, whatever follows that is not a digit. */
  lemma NetworkIdOfUrl(p: string, n: nat, rest: string)
    requires NoMarkerStart(p)
    requires rest == [] || !IsDigit(rest[0])
    ensures NetworkIdFromUrl(p + NetworksMarker + Decimal(n) + rest) == Some(n)
  {
    var d := Decimal(n);
    var s := p + NetworksMarker + d + rest;
    var k := |p| + |NetworksMarker|;
    assert s[|p|..k] == NetworksMarker;
    assert s[k] == d[0];
    assert MarkerAt(s, |p|);
    assert s[..|p|] == p;
    NoMarkerInPrefix(p, s);
    FirstMarkerFinds(s, 0);
    var f := FirstMarker(s, 0);
    assert f == Some(|p|);
    assert s == (p + NetworksMarker) + (d + rest);
    assert s[k..] == d + rest;
    DigitRunOf(s, k, d, rest);
    DecimalRoundTrip(n);
  }

  lemma DigitRunOf(s: string, k: nat, d: string, rest: string)
    requires AllDigits(d) && k + |d| + |rest| == |s|
    requires s[k..] == d + rest
    requires rest == [] || !IsDigit(rest[0])
    ensures DigitRun(s, k) == d
    decreases |d|
  {
    if d != [] {
      assert s[k] == d[0];
      assert s[k + 1..] == d[1..] + rest;
      DigitRunOf(s, k + 1, d[1..], rest);
    } else if rest != [] {
      assert s[k] == rest[0];
    }
  }

  /** The API reports network URLs as `/2.2/networks/<id>`; the filter reads the ID from them. */
  lemma NetworkIdOfApiPath(n: nat)
    ensures NetworkIdFromUrl("/2.2/networks/" + Decimal(n)) == Some(n)
  {
    var p := "/2.2";
    var d := Decimal(n);
    var s := p + NetworksMarker + d + [];
    assert s == "/2.2/networks/" + d;
    assert NoMarkerStart(p) by {
      assert |p| == 4 && p[0] == '/' && p[1] == '2' && p[2] == '.' && p[3] == '2';
      forall i | 0 <= i < |p| && p[i] == '/' ensures i + 1 < |p| && p[i + 1] != 'n' {
        assert i != 1 && i != 2 && i != 3;
      }
    }
    NetworkIdOfUrl(p, n, []);
    assert NetworkIdFromUrl(s) == Some(n);
  }
}
