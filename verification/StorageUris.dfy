/** Printed blob addresses (services/resource_store/src/service.py, `_storage_uri`). */
module StorageUris {

  function Digit(d: nat): char
    requires d < 10
  {
    "0123456789"[d]
  }

  /** The decimal numeral that string formatting prints. */
  function Decimal(n: nat): (s: string)
    ensures |s| > 0 && forall i :: 0 <= i < |s| ==> '0' <= s[i] <= '9'
  {
    if n < 10 then [Digit(n)] else Decimal(n / 10) + [Digit(n % 10)]
  }

  function StorageUri(name: string, version: nat): string {
    name + "/v" + Decimal(version) + ".json"
  }

  /** The number that a string of digits stands for. */
  function Reading(s: string): nat
    requires forall i :: 0 <= i < |s| ==> '0' <= s[i] <= '9'
  {
    if s == [] then 0 else 10 * Reading(s[..|s| - 1]) + (s[|s| - 1] - '0') as nat
  }

  /** The address names the resource and its version number, written in decimal without leading zeros. */
  lemma {:induction false} StorageUriShows(name: string, version: nat)
    ensures StorageUri(name, version) == name + "/v" + Decimal(version) + ".json"
    ensures Reading(Decimal(version)) == version && (version > 0 ==> Decimal(version)[0] != '0')
  {
    if version >= 10 { StorageUriShows(name, version / 10); }
  }

  lemma {:induction false} DigitInjective(a: nat, b: nat)
    requires a < 10 && b < 10 && Digit(a) == Digit(b)
    ensures a == b
  {
  }

  lemma {:induction false} DecimalInjective(a: nat, b: nat)
    requires Decimal(a) == Decimal(b)
    ensures a == b
  {
    var s, t := Decimal(a), Decimal(b);
    assert s[|s| - 1] == Digit(a % 10) && t[|t| - 1] == Digit(b % 10);
    DigitInjective(a % 10, b % 10);
    hide Digit;
    if a >= 10 && b >= 10 {
      assert s[..|s| - 1] == Decimal(a / 10) && t[..|t| - 1] == Decimal(b / 10);
      DecimalInjective(a / 10, b / 10);
    }
  }

  /** The last slash of an address closes the name. */
  lemma {:induction false} NameLength(a: string, x: string, b: string, y: string)
    requires a + "/v" + x == b + "/v" + y
    requires forall i :: 0 <= i < |x| ==> '0' <= x[i] <= '9'
    ensures |b| <= |a|
  {
    var s, t := a + "/v" + x, b + "/v" + y;
    assert t[|b|] == '/';
    assert forall k :: |a| < k < |s| ==> s[k] == if k == |a| + 1 then 'v' else x[k - |a| - 2];
  }

  /** No two versions share an address, whatever characters the names contain. */
  lemma {:induction false} StorageUriInjective(a: string, v: nat, b: string, w: nat)
    requires StorageUri(a, v) == StorageUri(b, w)
    ensures a == b && v == w
  {
    var s, t := a + "/v" + Decimal(v), b + "/v" + Decimal(w);
    assert s + ".json" == t + ".json";
    assert s == (s + ".json")[..|s|] && t == (t + ".json")[..|t|];
    NameLength(a, Decimal(v), b, Decimal(w));
    NameLength(b, Decimal(w), a, Decimal(v));
    assert a == s[..|a|] && b == t[..|b|];
    assert Decimal(v) == s[|a| + 2..] && Decimal(w) == t[|b| + 2..];
    DecimalInjective(v, w);
  }
}
