/** Cookie headers: `MergeSetCookies` of internal/gemini/client.go folds the cookies a
    reply sets into the stored header, `normalizeCookie` of internal/store/accounts.go
    tidies what an administrator pasted. */
module Cookies {
  import opened GoStrings
  import Json

  // ---- strings.Split on ';' ----

  function Split(s: string): (parts: seq<string>)
    ensures parts != []
  {
    if s == "" then [""] else
      var parts := Split(s[..|s| - 1]);
      var c := s[|s| - 1];
      if c == ';' then parts + [""] else parts[..|parts| - 1] + [parts[|parts| - 1] + [c]]
  }

  /** `strings.SplitN(s, ";", 2)[0]` */
  function BeforeFirst(s: string): (r: string)
    ensures r <= s && ';' !in r
  {
    if s == "" || s[0] == ';' then "" else
      var r := BeforeFirst(s[1..]);
      assert s == [s[0]] + s[1..];
      [s[0]] + r
  }

  /** The index of the first '=', or -1. */
  function EqualsAt(s: string): (i: int)
    ensures i == -1 || (0 <= i < |s| && s[i] == '=')
    ensures forall k | 0 <= k < (if i == -1 then |s| else i) :: s[k] != '='
  {
    if s == "" then -1
    else if s[0] == '=' then 0
    else
      var i := EqualsAt(s[1..]);
      assert forall k | 0 < k < |s| :: s[k] == s[1..][k - 1];
      if i == -1 then -1 else i + 1
  }

  // ---- the ordered jar ----

  datatype Pair = Pair(name: string, value: string)

  /** One `name=value` part; a part without a name or without '=' is dropped. */
  function PairOf(part: string): Option<Pair> {
    var t := TrimSpace(part);
    var i := EqualsAt(t);
    if i <= 0 then None else Some(Pair(t[..i], t[i + 1..]))
  }

  function PairsOf(parts: seq<string>): seq<Pair> {
    if parts == [] then [] else
      PairsOf(parts[..|parts| - 1]) +
      match PairOf(parts[|parts| - 1])
      case None => []
      case Some(p) => [p]
  }

  /** Names in the order of their first appearance, each with its last value. */
  datatype Jar = Jar(order: seq<string>, values: map<string, string>)

  const NO_COOKIES := Jar([], map[])

  function Put(jar: Jar, p: Pair): Jar {
    Jar(if p.name in jar.values then jar.order else jar.order + [p.name], jar.values[p.name := p.value])
  }

  function PutAll(jar: Jar, pairs: seq<Pair>): Jar {
    if pairs == [] then jar else Put(PutAll(jar, pairs[..|pairs| - 1]), pairs[|pairs| - 1])
  }

  function Parse(header: string): Jar {
    PutAll(NO_COOKIES, PairsOf(Split(header)))
  }

  function SetPairs(setCookies: seq<string>): seq<Pair> {
    if setCookies == [] then [] else
      SetPairs(setCookies[..|setCookies| - 1]) +
      match PairOf(BeforeFirst(setCookies[|setCookies| - 1]))
      case None => []
      case Some(p) => [p]
  }

  /** `strings.Join(parts, "; ")` */
  function Join(parts: seq<string>): string {
    if parts == [] then ""
    else if |parts| == 1 then parts[0]
    else Join(parts[..|parts| - 1]) + "; " + parts[|parts| - 1]
  }

  predicate Consistent(jar: Jar) {
    && (forall n | n in jar.order :: n in jar.values)
    && (forall n | n in jar.values :: n in jar.order)
    && (forall i, j | 0 <= i < j < |jar.order| :: jar.order[i] != jar.order[j])
  }

  function Printed(order: seq<string>, values: map<string, string>): (parts: seq<string>)
    requires forall n | n in order :: n in values
    ensures |parts| == |order|
  {
    if order == [] then [] else
      var n := |order| - 1;
      Printed(order[..n], values) + [order[n] + "=" + values[order[n]]]
  }

  function Print(jar: Jar): string
    requires Consistent(jar)
  {
    Join(Printed(jar.order, jar.values))
  }

  function Merged(cookie: string, setCookies: seq<string>): Jar {
    PutAll(Parse(cookie), SetPairs(setCookies))
  }

  lemma PutKeepsConsistent(jar: Jar, p: Pair)
    requires Consistent(jar)
    ensures Consistent(Put(jar, p))
  {
  }

  lemma {:induction false} PutAllKeepsConsistent(jar: Jar, pairs: seq<Pair>)
    requires Consistent(jar)
    ensures Consistent(PutAll(jar, pairs))
  {
    if pairs != [] {
      PutAllKeepsConsistent(jar, pairs[..|pairs| - 1]);
      PutKeepsConsistent(PutAll(jar, pairs[..|pairs| - 1]), pairs[|pairs| - 1]);
    }
  }

  method MergeSetCookies(cookie: string, setCookies: seq<string>) returns (merged: string)
    ensures Consistent(Merged(cookie, setCookies)) && merged == Print(Merged(cookie, setCookies))
  {
    hide TrimSpace, Split, PairOf, Join, Consistent;
    var values: map<string, string> := map[];
    var order: seq<string> := [];
    var parts := Split(cookie);
    for i := 0 to |parts|
      invariant Jar(order, values) == PutAll(NO_COOKIES, PairsOf(parts[..i]))
    {
      assert parts[..i + 1][..i] == parts[..i];
      var pair := PairOf(parts[i]);
      if pair.None? {
        assert PairsOf(parts[..i]) + [] == PairsOf(parts[..i]);
        continue;
      }
      PutAllAppend(NO_COOKIES, PairsOf(parts[..i]), pair.value);
      if pair.value.name !in values {
        order := order + [pair.value.name];
      }
      values := values[pair.value.name := pair.value.value];
    }
    assert parts[..|parts|] == parts;
    for i := 0 to |setCookies|
      invariant Jar(order, values) == PutAll(Parse(cookie), SetPairs(setCookies[..i]))
    {
      assert setCookies[..i + 1][..i] == setCookies[..i];
      var pair := PairOf(BeforeFirst(setCookies[i]));
      if pair.None? {
        assert SetPairs(setCookies[..i]) + [] == SetPairs(setCookies[..i]);
        continue;
      }
      PutAllAppend(Parse(cookie), SetPairs(setCookies[..i]), pair.value);
      if pair.value.name !in values {
        order := order + [pair.value.name];
      }
      values := values[pair.value.name := pair.value.value];
    }
    assert setCookies[..|setCookies|] == setCookies;
    MergedIsConsistent(cookie, setCookies);
    ConsistentHasValues(Jar(order, values));
    var printed: seq<string> := [];
    for i := 0 to |order|
      invariant printed == Printed(order[..i], values)
    {
      assert order[..i + 1][..i] == order[..i];
      printed := printed + [order[i] + "=" + values[order[i]]];
    }
    assert order[..|order|] == order;
    merged := Join(printed);
  }

  lemma PutAllAppend(jar: Jar, pairs: seq<Pair>, p: Pair)
    ensures PutAll(jar, pairs + [p]) == Put(PutAll(jar, pairs), p)
  {
    assert (pairs + [p])[..|pairs|] == pairs;
  }

  lemma ConsistentHasValues(jar: Jar)
    requires Consistent(jar)
    ensures forall n | n in jar.order :: n in jar.values
  {
  }

  lemma MergedIsConsistent(cookie: string, setCookies: seq<string>)
    ensures Consistent(Merged(cookie, setCookies)) && Consistent(Parse(cookie))
  {
    hide PairsOf, SetPairs, Split;
    PutAllKeepsConsistent(NO_COOKIES, PairsOf(Split(cookie)));
    PutAllKeepsConsistent(Parse(cookie), SetPairs(setCookies));
  }

  // ---- normalizeCookie ----

  /** The trimmed parts that contain '='. */
  function Kept(parts: seq<string>): seq<string> {
    if parts == [] then [] else
      var t := TrimSpace(parts[|parts| - 1]);
      Kept(parts[..|parts| - 1]) + (if t != "" && '=' in t then [t] else [])
  }

  /** The last string assigned to the field `cookie`, as `json.Unmarshal` does it. */
  function WrappedCookie(t: string, fields: seq<Json.Field>): Option<string>
    requires Json.InText(t, fields)
  {
    if fields == [] then Some("") else
      match WrappedCookie(t, fields[..|fields| - 1])
      case None => None
      case Some(before) =>
        var f := fields[|fields| - 1];
        if !Json.Names(f.key, "cookie") then Some(before)
        else if t[f.start] == '"' then
          match Json.Unquote(t, f.start + 1)
          case None => None
          case Some(x) => Some(x.value)
        else if t[f.start] == 'n' then Some(before) else None
  }

  function Unwrap(t: string): Option<string> {
    if !Json.Valid(t) then None else
      match Json.Members(t)
      case None => None
      case Some(fields) => WrappedCookie(t, fields)
  }

  function Normalized(value: string): string {
    var t := TrimSpace(value);
    if t != "" && t[0] == '{' then
      match Unwrap(t)
      case None => ""
      case Some(cookie) => if TrimSpace(cookie) == "" then "" else Join(Kept(Split(cookie)))
    else Join(Kept(Split(t)))
  }

  method NormalizeCookie(value: string) returns (r: string)
    ensures r == Normalized(value)
  {
    hide TrimSpace, Split, Join, Unwrap;
    var v := TrimSpace(value);
    if v != "" && v[0] == '{' {
      var wrapper := Unwrap(v);
      if wrapper.None? || TrimSpace(wrapper.value) == "" {
        return "";
      }
      v := wrapper.value;
    }
    var parts := Split(v);
    var cleaned: seq<string> := [];
    for i := 0 to |parts|
      invariant cleaned == Kept(parts[..i])
    {
      assert parts[..i + 1][..i] == parts[..i];
      var part := TrimSpace(parts[i]);
      if part != "" && '=' in part {
        cleaned := cleaned + [part];
      }
    }
    assert parts[..|parts|] == parts;
    r := Join(cleaned);
  }
}
