/**
 * `getVar` from helpers.php: read a server variable, falling back on the
 * copy Apache makes under a `REDIRECT_` prefix when a request is rewritten.
 *
 * The server variables are PHP's ordered array `$_SERVER`, modelled as a
 * sequence of (key, value) entries in array order. The lookup only reads it.
 */
module ServerVars {
  import opened Wrappers

  type Entry = (string, string)

  const RedirectPrefix: string := "REDIRECT_"

  /** PHP's array keys are unique. */
  predicate DistinctKeys(server: seq<Entry>) {
    forall i, j :: 0 <= i < j < |server| ==> server[i].0 != server[j].0
  }

  /** PHP `substr($s, 0, $n)` for `$n >= 0`: at most the first `n` characters. */
  function SubstrHead(s: string, n: nat): string {
    if n <= |s| then s[..n] else s
  }

  /**
   * PHP `substr($s, -$n)` for `$n >= 0`. Since `-0` is `0`, a zero length
   * yields the whole string; a length beyond the string clamps to its start.
   */
  function SubstrTail(s: string, n: nat): string {
    if n == 0 || n >= |s| then s else s[|s| - n..]
  }

  /** The two tests of helpers.php:9-10 on an entry key `k`. */
  predicate RedirectMatches(k: string, key: string) {
    SubstrHead(k, |RedirectPrefix|) == RedirectPrefix && SubstrTail(k, |key|) == key
  }

  /** The value of the first entry whose key is exactly `key` (`array_key_exists`, `$_SERVER[$key]`). */
  function ExactLookup(server: seq<Entry>, key: string): (r: Option<string>)
    ensures r.None? <==> forall i :: 0 <= i < |server| ==> server[i].0 != key
    ensures r.Some? ==> exists i :: 0 <= i < |server| && server[i] == (key, r.value)
  {
    if server == [] then None
    else if server[0].0 == key then Some(server[0].1)
    else
      var rest := ExactLookup(server[1..], key);
      assert forall i :: 1 <= i < |server| ==> server[i] == server[1..][i - 1];
      rest
  }

  /** The value of the first entry, in array order, that passes the redirect test (helpers.php:8-13). */
  function FirstRedirect(server: seq<Entry>, key: string): (r: Option<string>)
    ensures r.None? <==> forall i :: 0 <= i < |server| ==> !RedirectMatches(server[i].0, key)
    ensures r.Some? ==> exists i :: 0 <= i < |server| && server[i].1 == r.value
                                    && RedirectMatches(server[i].0, key)
                                    && forall j :: 0 <= j < i ==> !RedirectMatches(server[j].0, key)
  {
    if server == [] then None
    else if RedirectMatches(server[0].0, key) then Some(server[0].1)
    else
      var rest := FirstRedirect(server[1..], key);
      assert forall i :: 1 <= i < |server| ==> server[i] == server[1..][i - 1];
      if rest.Some? then
        var i' :| 0 <= i' < |server[1..]| && server[1..][i'].1 == rest.value
                  && RedirectMatches(server[1..][i'].0, key)
                  && forall j :: 0 <= j < i' ==> !RedirectMatches(server[1..][j].0, key);
        assert forall j :: 0 <= j < i' + 1 ==> !RedirectMatches(server[j].0, key) by {
          forall j | 0 <= j < i' + 1 ensures !RedirectMatches(server[j].0, key) {
            if j > 0 { assert server[j] == server[1..][j - 1]; }
          }
        }
        assert server[i' + 1] == server[1..][i'];
        rest
      else rest
  }

  /** helpers.php:4-16. */
  function GetVar(server: seq<Entry>, key: string): (r: Option<string>)
    ensures r.None? <==>
              forall i :: 0 <= i < |server| ==> server[i].0 != key && !RedirectMatches(server[i].0, key)
    ensures r.Some? ==> exists i :: 0 <= i < |server| && server[i].1 == r.value
                                    && (server[i].0 == key || RedirectMatches(server[i].0, key))
  {
    var exact := ExactLookup(server, key);
    if exact.Some? then exact else FirstRedirect(server, key)
  }

  /** The redirect test in plain terms: a `REDIRECT_` key that ends with a non-empty `key`. */
  lemma RedirectMatchesIff(k: string, key: string)
    ensures RedirectMatches(k, key) <==>
              |RedirectPrefix| <= |k| && k[..|RedirectPrefix|] == RedirectPrefix
              && 0 < |key| <= |k| && k[|k| - |key|..] == key
  {
  }

  /** An exact entry wins, even when `REDIRECT_` entries also match (helpers.php:6-7). */
  lemma GetVarExact(server: seq<Entry>, key: string, i: nat)
    requires DistinctKeys(server)
    requires i < |server| && server[i].0 == key
    ensures GetVar(server, key) == Some(server[i].1)
  {
    var r := ExactLookup(server, key);
    var j :| 0 <= j < |server| && server[j] == (key, r.value);
    assert i == j;
  }

  /**
   * Without an exact entry the result is the value of the first entry, in
   * array order, that passes the redirect test (helpers.php:8-12).
   */
  lemma GetVarFallback(server: seq<Entry>, key: string, i: nat)
    requires forall k :: 0 <= k < |server| ==> server[k].0 != key
    requires i < |server| && RedirectMatches(server[i].0, key)
    requires forall j :: 0 <= j < i ==> !RedirectMatches(server[j].0, key)
    ensures GetVar(server, key) == Some(server[i].1)
  {
    var r := FirstRedirect(server, key);
    var i' :| 0 <= i' < |server| && server[i'].1 == r.value
              && RedirectMatches(server[i'].0, key)
              && forall j :: 0 <= j < i' ==> !RedirectMatches(server[j].0, key);
    assert i == i';
  }

  /** null exactly when no entry has the key and no entry passes the redirect test (helpers.php:15). */
  lemma GetVarNull(server: seq<Entry>, key: string)
    ensures GetVar(server, key).None? <==>
              forall i :: 0 <= i < |server| ==> server[i].0 != key && !RedirectMatches(server[i].0, key)
  {
  }

  /** For an empty key the redirect test never passes, so only an exact `""` entry can be returned. */
  lemma GetVarEmptyKey(server: seq<Entry>)
    ensures GetVar(server, "") == ExactLookup(server, "")
  {
    forall i | 0 <= i < |server| ensures !RedirectMatches(server[i].0, "") {
      RedirectMatchesIff(server[i].0, "");
    }
  }

  /**
   * The fallback matches on suffix: for `ENV` both `REDIRECT_FOO_ENV` and
   * `REDIRECT_ENV` qualify, and the earlier one wins.
   */
  lemma GetVarSuffixExample()
    ensures GetVar([("REDIRECT_FOO_ENV", "a"), ("REDIRECT_ENV", "b")], "ENV") == Some("a")
    ensures GetVar([("REDIRECT_ENV", "b"), ("REDIRECT_FOO_ENV", "a")], "ENV") == Some("b")
    ensures GetVar([("REDIRECT_ENV", "b"), ("ENV", "c")], "ENV") == Some("c")
  {
  }
}
