/** Agent cards to and from plain dicts (models.py). Python attributes are untyped, so every
    attribute that is not itself a dataclass holds a JSON value, with None as JNull. */
module AgentCards {
  import opened Common
  import opened Json

  // ---- dataclasses with plain attributes --------------------------------------------

  /** An attribute and the value it takes when the dict does not have it. */
  datatype Field = Field(name: string, default: Json)

  type Class = seq<Field>

  /** An instance of such a class: one value per attribute. */
  type Flat = map<string, Json>

  const NO_TEXT := JStr("")
  const NO_LIST := JArr([])
  const NO_DICT := JObj(map[])

  const INTERFACE: Class := [Field("url", NO_TEXT), Field("protocol_binding", JStr("JSONRPC")),
                             Field("protocol_version", JStr("1.0")), Field("tenant", JNull)]
  const EXTENSION: Class := [Field("name", NO_TEXT), Field("url", NO_TEXT), Field("required", JNull),
                             Field("properties", JNull)]
  const FLAGS: Class := [Field("streaming", JNull), Field("push_notifications", JNull),
                         Field("extended_agent_card", JNull)]
  const SKILL: Class := [Field("id", NO_TEXT), Field("name", NO_TEXT), Field("description", NO_TEXT),
                         Field("tags", NO_LIST),
                         Field("examples", JNull), Field("input_modes", JNull), Field("output_modes", JNull),
                         Field("uri_schemes", NO_LIST), Field("input_schema", JNull), Field("output_schema", JNull)]
  const PROVIDER: Class := [Field("url", NO_TEXT), Field("organization", NO_TEXT)]
  const REQUIREMENT: Class := [Field("schemes", NO_DICT)]
  const SIGNATURE: Class := [Field("alg", NO_TEXT), Field("signature", NO_TEXT), Field("key_url", NO_TEXT),
                             Field("kid", JNull)]
  const API_KEY: Class := [Field("name", NO_TEXT), Field("key_format", JNull)]
  const HTTP_AUTH: Class := [Field("scheme", NO_TEXT)]
  const OPEN_ID: Class := [Field("issuer_url", NO_TEXT), Field("discovery_url", JNull)]
  const MTLS: Class := [Field("certificate_authority", JNull), Field("certificate_requirements", JNull)]
  const OAUTH2: Class := [Field("oauth2_metadata_url", JNull)]
  const SCHEME: Class := [Field("scheme_type", NO_TEXT), Field("description", JNull)]
  const CARD: Class := [Field("name", NO_TEXT), Field("description", NO_TEXT), Field("version", JStr("1.0.0")),
                        Field("documentation_url", JNull), Field("icon_url", JNull),
                        Field("default_input_modes", JArr([JStr("text/plain")])),
                        Field("default_output_modes", JArr([JStr("text/plain")]))]

  /** The five grants of OAuthFlows. */
  const FLOWS: map<string, Class> := map[
    "authorization_code" := [Field("authorization_url", NO_TEXT), Field("token_url", NO_TEXT),
                             Field("refresh_url", JNull), Field("scopes", NO_DICT)],
    "client_credentials" := [Field("token_url", NO_TEXT), Field("refresh_url", JNull), Field("scopes", NO_DICT)],
    "device_code" := [Field("device_authorization_url", NO_TEXT), Field("token_url", NO_TEXT),
                      Field("scopes", NO_DICT)],
    "implicit" := [Field("authorization_url", NO_TEXT), Field("refresh_url", JNull), Field("scopes", NO_DICT)],
    "password" := [Field("token_url", NO_TEXT), Field("refresh_url", JNull), Field("scopes", NO_DICT)]]

  function Names(c: Class): set<string> {
    set f | f in c :: f.name
  }

  function DefaultOf(c: Class, name: string): Json {
    if c == [] then JNull else if c[0].name == name then c[0].default else DefaultOf(c[1..], name)
  }

  /** Serialization drops the attributes that are None. */
  function FlatToDict(r: Flat): Object {
    map k | k in r && r[k] != JNull :: r[k]
  }

  /** The parsers that read each attribute with `d.get(name, default)`. */
  function FromGet(c: Class, d: Object): Flat {
    map k | k in Names(c) :: GetOr(d, k, DefaultOf(c, k))
  }

  /** `Class(**d)`: an unknown key raises a TypeError. */
  function FromKeywords(c: Class, d: Object): Option<Flat> {
    if d.Keys <= Names(c) then Some(FromGet(c, d)) else None
  }

  predicate IsA(c: Class, r: Flat) {
    r.Keys == Names(c)
  }

  /** No attribute is None unless that is what its absence means. */
  predicate Full(c: Class, r: Flat) {
    IsA(c, r) && forall k :: k in r && r[k] == JNull ==> DefaultOf(c, k) == JNull
  }

  lemma FlatRoundTrip(c: Class, r: Flat)
    requires IsA(c, r)
    ensures FromGet(c, FlatToDict(r)) == r <==> Full(c, r)
    ensures FromKeywords(c, FlatToDict(r)) == Some(FromGet(c, FlatToDict(r)))
  {
    var r' := FromGet(c, FlatToDict(r));
    assert forall k :: k in r ==> r'[k] == if r[k] == JNull then DefaultOf(c, k) else r[k];
  }

  function Lookup(d: Object, key: string): Option<Json> {
    if key in d then Some(d[key]) else None
  }

  lemma FromGetSame(c: Class, d: Object, d': Object)
    requires forall k :: k in Names(c) ==> Lookup(d, k) == Lookup(d', k)
    ensures FromGet(c, d) == FromGet(c, d')
  {
    forall k | k in Names(c)
      ensures GetOr(d, k, DefaultOf(c, k)) == GetOr(d', k, DefaultOf(c, k))
    {
      assert Lookup(d, k) == Lookup(d', k);
    }
  }

  // ---- what missing members read as -------------------------------------------------

  lemma {:induction false} DefaultAt(c: Class, i: nat)
    requires i < |c| && forall j :: 0 <= j < i ==> c[j].name != c[i].name
    ensures DefaultOf(c, c[i].name) == c[i].default
  {
    if i > 0 {
      assert forall j :: 0 <= j < i - 1 ==> c[1..][j] == c[j + 1];
      DefaultAt(c[1..], i - 1);
    }
  }

  /** An attribute that the dict does not have reads as the default of its class. */
  lemma MissingReads(c: Class, d: Object, i: nat)
    requires i < |c| && c[i].name !in d && forall j :: 0 <= j < i ==> c[j].name != c[i].name
    ensures c[i].name in FromGet(c, d) && FromGet(c, d)[c[i].name] == c[i].default
  {
    DefaultAt(c, i);
    assert c[i] in c;
  }

  lemma InterfaceDefaults()
    ensures DefaultOf(INTERFACE, "url") == JStr("") && DefaultOf(INTERFACE, "tenant") == JNull
    ensures DefaultOf(INTERFACE, "protocol_binding") == JStr("JSONRPC")
    ensures DefaultOf(INTERFACE, "protocol_version") == JStr("1.0")
  {
    DefaultAt(INTERFACE, 0);
    DefaultAt(INTERFACE, 1);
    DefaultAt(INTERFACE, 2);
    DefaultAt(INTERFACE, 3);
  }

  lemma CardDefaults()
    ensures DefaultOf(CARD, "name") == JStr("") && DefaultOf(CARD, "documentation_url") == JNull
    ensures DefaultOf(CARD, "version") == JStr("1.0.0")
    ensures DefaultOf(CARD, "default_input_modes") == JArr([JStr("text/plain")])
    ensures DefaultOf(CARD, "default_output_modes") == JArr([JStr("text/plain")])
  {
    DefaultAt(CARD, 0);
    DefaultAt(CARD, 2);
    DefaultAt(CARD, 3);
    DefaultAt(CARD, 5);
    DefaultAt(CARD, 6);
  }

  lemma SkillDefaults()
    ensures DefaultOf(SKILL, "id") == JStr("") && DefaultOf(SKILL, "tags") == JArr([])
    ensures DefaultOf(SKILL, "examples") == JNull && DefaultOf(SKILL, "uri_schemes") == JArr([])
  {
    DefaultAt(SKILL, 0);
    DefaultAt(SKILL, 3);
    DefaultAt(SKILL, 4);
    DefaultAt(SKILL, 7);
  }

  /** `_dataclass_to_dict` on such an instance, field by field. */
  method DataclassToDict(c: Class, r: Flat) returns (d: Object)
    requires IsA(c, r)
    ensures d == FlatToDict(r)
  {
    d := map[];
    for i := 0 to |c|
      invariant d == map k | k in Names(c[..i]) && r[k] != JNull :: r[k]
    {
      assert c[..i + 1] == c[..i] + [c[i]];
      assert Names(c[..i + 1]) == Names(c[..i]) + {c[i].name};
      var value := r[c[i].name];
      if value != JNull {
        d := d[c[i].name := value];
      }
    }
    assert c[..|c|] == c;
  }

  // ---- lists and dicts of parts -----------------------------------------------------

  /** Iterating over a JSON value whose elements must be dicts; None when that raises. */
  function Dicts(j: Json): Option<seq<Object>> {
    match j
    case JArr(items) =>
      if exists i :: 0 <= i < |items| && !items[i].JObj? then None
      else Some(seq(|items|, i requires 0 <= i < |items| && items[i].JObj? => items[i].members))
    case JStr(s) => if s == "" then Some([]) else None
    case JObj(members) => if members == map[] then Some([]) else None
    case _ => None
  }

  /** `for x in (d.get(key) or [])`. */
  function DictsOrEmpty(j: Json): Option<seq<Object>> {
    if Truth(j) then Dicts(j) else Some([])
  }

  /** What a list of parts may be: nothing, anything false, or a list of dicts; all else raises. */
  lemma ListsReadExactly(j: Json)
    ensures DictsOrEmpty(j).Some? <==>
            match j
            case JNull => true
            case JBool(b) => !b
            case JNum(n) => n == 0.0
            case JStr(s) => s == ""
            case JArr(items) => forall i :: 0 <= i < |items| ==> items[i].JObj?
            case JObj(members) => members == map[]
    ensures DictsOrEmpty(j).Some? && j.JArr? ==>
              && |DictsOrEmpty(j).value| == |j.items|
              && forall i :: 0 <= i < |j.items| ==> j.items[i] == JObj(DictsOrEmpty(j).value[i])
    ensures DictsOrEmpty(j).Some? && !j.JArr? ==> DictsOrEmpty(j).value == []
  {
  }

  function ToList<T>(f: T -> Object, xs: seq<T>): Json {
    JArr(seq(|xs|, i requires 0 <= i < |xs| => JObj(f(xs[i]))))
  }

  function TryMap<T>(f: Object -> Option<T>, ds: seq<Object>): Option<seq<T>> {
    if exists i :: 0 <= i < |ds| && f(ds[i]).None? then None
    else Some(seq(|ds|, i requires 0 <= i < |ds| && f(ds[i]).Some? => f(ds[i]).value))
  }

  /** A list of parts comes back exactly when each of its parts does. */
  lemma ListRoundTrip<T>(from: Object -> Option<T>, to: T -> Object, xs: seq<T>)
    ensures Dicts(ToList(to, xs)).Some? && DictsOrEmpty(ToList(to, xs)) == Dicts(ToList(to, xs))
    ensures TryMap(from, Dicts(ToList(to, xs)).value) == Some(xs) <==>
            forall i :: 0 <= i < |xs| ==> from(to(xs[i])) == Some(xs[i])
  {
    var ds := seq(|xs|, i requires 0 <= i < |xs| => to(xs[i]));
    var items := ToList(to, xs).items;
    assert forall i :: 0 <= i < |items| ==> items[i] == JObj(to(xs[i]));
    assert Dicts(ToList(to, xs)).value == ds;
    if items == [] {
      assert Dicts(ToList(to, xs)) == Some([]);
    }
    if forall i :: 0 <= i < |xs| ==> from(to(xs[i])) == Some(xs[i]) {
      assert forall i :: 0 <= i < |ds| ==> from(ds[i]) == Some(xs[i]);
      assert TryMap(from, ds).value == xs;
    } else {
      var i :| 0 <= i < |xs| && from(to(xs[i])) != Some(xs[i]);
      assert from(ds[i]) != Some(xs[i]);
      if TryMap(from, ds).Some? {
        assert TryMap(from, ds).value[i] == from(ds[i]).value;
      }
    }
  }

  /** `{name: f(x) for name, x in d.items()}` over dicts; None when some part raises. */
  function TryMapValues<T>(f: Object -> Option<T>, d: Object): Option<map<string, T>> {
    if exists name :: name in d && (!d[name].JObj? || f(d[name].members).None?) then None
    else Some(map name | name in d :: f(d[name].members).value)
  }

  lemma ValuesRoundTrip<T>(f: Object -> Option<T>, d: Object, xs: map<string, T>)
    requires d.Keys == xs.Keys && forall name :: name in d ==> d[name].JObj?
    ensures TryMapValues(f, d) == Some(xs) <==> forall name :: name in xs ==> f(d[name].members) == Some(xs[name])
  {
    var r := TryMapValues(f, d);
    if forall name :: name in xs ==> f(d[name].members) == Some(xs[name]) {
      assert r.Some? && r.value == xs;
    } else {
      var name :| name in xs && f(d[name].members) != Some(xs[name]);
      if r.Some? {
        assert r.value[name] == f(d[name].members).value;
      }
    }
  }

  function ToDicts<T>(f: T -> Object, xs: map<string, T>): Object {
    map name | name in xs :: JObj(f(xs[name]))
  }

  /** A false value reads as no parts; any other must be a dict of dicts. */
  function ParseDicts<T>(f: Object -> Option<T>, j: Json): Option<map<string, T>> {
    if !Truth(j) then Some(map[])
    else if !j.JObj? then None
    else TryMapValues(f, j.members)
  }

  /** A dict of parts comes back exactly when each of its parts does. */
  lemma DictsRoundTrip<T>(from: Object -> Option<T>, to: T -> Object, xs: map<string, T>)
    ensures ParseDicts(from, JObj(ToDicts(to, xs))) == Some(xs) <==>
            forall name :: name in xs ==> from(to(xs[name])) == Some(xs[name])
  {
    var d := ToDicts(to, xs);
    assert d.Keys == xs.Keys;
    ValuesRoundTrip(from, d, xs);
    assert forall name :: name in xs ==> d[name].members == to(xs[name]);
    if xs == map[] {
      assert d == map[];
    } else {
      var name :| name in xs;
      assert name in d;
    }
  }

  function Flats(c: Class): Object -> Option<Flat> {
    d => Some(FromGet(c, d))
  }

  lemma FlatsRoundTrip(c: Class, rs: seq<Flat>)
    requires forall i :: 0 <= i < |rs| ==> IsA(c, rs[i])
    ensures Dicts(ToList(FlatToDict, rs)).Some? && DictsOrEmpty(ToList(FlatToDict, rs)) == Dicts(ToList(FlatToDict, rs))
    ensures TryMap(Flats(c), Dicts(ToList(FlatToDict, rs)).value) == Some(rs) <==>
            forall i :: 0 <= i < |rs| ==> Full(c, rs[i])
  {
    ListRoundTrip(Flats(c), FlatToDict, rs);
    forall i | 0 <= i < |rs|
      ensures Flats(c)(FlatToDict(rs[i])) == Some(rs[i]) <==> Full(c, rs[i])
    {
      FlatRoundTrip(c, rs[i]);
    }
  }

  // ---- skills and capabilities ------------------------------------------------------

  /** A dataclass with one attribute that is an optional list of other instances. */
  datatype WithList = WithList(leaf: Flat, parts: Option<seq<Flat>>)

  function WithListToDict(key: string, x: WithList): Object {
    match x.parts
    case None => FlatToDict(x.leaf)
    case Some(parts) => FlatToDict(x.leaf)[key := ToList(FlatToDict, parts)]
  }

  function WithListFrom(c: Class, key: string, part: Class, d: Object): Option<WithList> {
    if Get(d, key) == JNull then Some(WithList(FromGet(c, d), None))
    else
      var ds :- Dicts(Get(d, key));
      var parts :- TryMap(Flats(part), ds);
      Some(WithList(FromGet(c, d), Some(parts)))
  }

  predicate WithListIsA(c: Class, part: Class, x: WithList) {
    IsA(c, x.leaf) && (x.parts.Some? ==> forall i :: 0 <= i < |x.parts.value| ==> IsA(part, x.parts.value[i]))
  }

  predicate WithListFull(c: Class, part: Class, x: WithList) {
    Full(c, x.leaf) && (x.parts.Some? ==> forall i :: 0 <= i < |x.parts.value| ==> Full(part, x.parts.value[i]))
  }

  lemma WithListRoundTrip(c: Class, key: string, part: Class, x: WithList)
    requires WithListIsA(c, part, x) && key !in Names(c)
    ensures WithListFrom(c, key, part, WithListToDict(key, x)) == Some(x) <==> WithListFull(c, part, x)
  {
    var d := WithListToDict(key, x);
    FlatRoundTrip(c, x.leaf);
    assert FromGet(c, d) == FromGet(c, FlatToDict(x.leaf));
    if x.parts.Some? {
      FlatsRoundTrip(part, x.parts.value);
    }
  }

  type Skill = WithList

  type Capabilities = WithList

  function SkillToDict(s: Skill): Object { WithListToDict("security_requirements", s) }

  function SkillFromDict(d: Object): Option<Skill> { WithListFrom(SKILL, "security_requirements", REQUIREMENT, d) }

  function CapabilitiesToDict(c: Capabilities): Object { WithListToDict("extensions", c) }

  function CapabilitiesFromDict(d: Object): Option<Capabilities> { WithListFrom(FLAGS, "extensions", EXTENSION, d) }

  // ---- security schemes -------------------------------------------------------------

  /** The grants that are not None, by name. */
  type Flows = map<string, Flat>

  function FlowsToDict(f: Flows): Object {
    map name | name in f :: JObj(FlatToDict(f[name]))
  }

  function FlowsFromDict(d: Object): Option<Flows> {
    if exists name :: name in FLOWS && Get(d, name).JObj?
                      && FromKeywords(FLOWS[name], Get(d, name).members).None?
    then None
    else Some(map name | name in FLOWS && Get(d, name).JObj? :: FromGet(FLOWS[name], Get(d, name).members))
  }

  predicate FlowsIsA(f: Flows) {
    f.Keys <= FLOWS.Keys && forall name :: name in f ==> IsA(FLOWS[name], f[name])
  }

  predicate FlowsFull(f: Flows) {
    f.Keys <= FLOWS.Keys && forall name :: name in f ==> Full(FLOWS[name], f[name])
  }

  lemma FlowsRoundTrip(f: Flows)
    requires FlowsIsA(f)
    ensures FlowsFromDict(FlowsToDict(f)) == Some(f) <==> FlowsFull(f)
  {
    var d := FlowsToDict(f);
    forall name | name in f
      ensures FromKeywords(FLOWS[name], FlatToDict(f[name])).Some?
      ensures FromGet(FLOWS[name], FlatToDict(f[name])) == f[name] <==> Full(FLOWS[name], f[name])
    {
      FlatRoundTrip(FLOWS[name], f[name]);
    }
    assert forall name :: Get(d, name).JObj? <==> name in f;
    var f' := FlowsFromDict(d).value;
    assert f'.Keys == f.Keys;
    if FlowsFull(f) {
      assert f' == f;
    } else {
      var name :| name in f && !Full(FLOWS[name], f[name]);
      assert f'[name] != f[name];
    }
  }

  datatype OAuth2 = OAuth2(leaf: Flat, flows: Option<Flows>)

  function OAuth2ToDict(o: OAuth2): Object {
    match o.flows
    case None => FlatToDict(o.leaf)
    case Some(f) => FlatToDict(o.leaf)["flows" := JObj(FlowsToDict(f))]
  }

  /** A false `flows` value, such as an empty dict, reads as no flows at all. */
  function OAuth2FromDict(d: Object): Option<OAuth2> {
    if !Truth(Get(d, "flows")) then Some(OAuth2(FromGet(OAUTH2, d), None))
    else if !Get(d, "flows").JObj? then None
    else
      var f :- FlowsFromDict(Get(d, "flows").members);
      Some(OAuth2(FromGet(OAUTH2, d), Some(f)))
  }

  predicate OAuth2IsA(o: OAuth2) {
    IsA(OAUTH2, o.leaf) && (o.flows.Some? ==> FlowsIsA(o.flows.value))
  }

  /** The flows, if present, are not all empty. */
  predicate OAuth2Full(o: OAuth2) {
    IsA(OAUTH2, o.leaf) && (o.flows.Some? ==> o.flows.value != map[] && FlowsFull(o.flows.value))
  }

  lemma OAuth2RoundTrip(o: OAuth2)
    requires OAuth2IsA(o)
    ensures OAuth2FromDict(OAuth2ToDict(o)) == Some(o) <==> OAuth2Full(o)
  {
    var d := OAuth2ToDict(o);
    FlatRoundTrip(OAUTH2, o.leaf);
    assert FromGet(OAUTH2, d) == FromGet(OAUTH2, FlatToDict(o.leaf));
    assert Full(OAUTH2, o.leaf);
    if o.flows.Some? {
      FlowsRoundTrip(o.flows.value);
      assert FlowsToDict(o.flows.value).Keys == o.flows.value.Keys;
    }
  }

  datatype Scheme = Scheme(leaf: Flat, apiKey: Option<Flat>, httpAuth: Option<Flat>, oauth2: Option<OAuth2>,
                           openId: Option<Flat>, mtls: Option<Flat>)

  /** A member that is None is dropped. */
  function Part(key: string, x: Option<Object>): Object {
    if x.Some? then map[key := JObj(x.value)] else map[]
  }

  function FlatPart(x: Option<Flat>): Option<Object> {
    if x.Some? then Some(FlatToDict(x.value)) else None
  }

  function OAuth2Part(x: Option<OAuth2>): Option<Object> {
    if x.Some? then Some(OAuth2ToDict(x.value)) else None
  }

  function SchemeToDict(s: Scheme): Object {
    FlatToDict(s.leaf) + Part("api_key", FlatPart(s.apiKey)) + Part("http_auth", FlatPart(s.httpAuth))
    + Part("oauth2", OAuth2Part(s.oauth2)) + Part("open_id_connect", FlatPart(s.openId))
    + Part("mtls", FlatPart(s.mtls))
  }

  /** What `d.get(key)` gives for a member. */
  function Member(x: Option<Object>): Json {
    if x.Some? then JObj(x.value) else JNull
  }

  function Blank(leaf: Flat): Scheme {
    Scheme(leaf, None, None, None, None, None)
  }

  /** Only the member that goes with the scheme type is read. */
  function SchemeFromParts(leaf: Flat, kind: Json, apiKey: Json, httpAuth: Json, oauth2: Json, openId: Json,
                           mtls: Json): Option<Scheme> {
    if kind == JStr("apiKey") && apiKey.JObj? then
      var x :- FromKeywords(API_KEY, apiKey.members);
      Some(Blank(leaf).(apiKey := Some(x)))
    else if kind == JStr("http") && httpAuth.JObj? then
      var x :- FromKeywords(HTTP_AUTH, httpAuth.members);
      Some(Blank(leaf).(httpAuth := Some(x)))
    else if kind == JStr("oauth2") && oauth2.JObj? then
      var x :- OAuth2FromDict(oauth2.members);
      Some(Blank(leaf).(oauth2 := Some(x)))
    else if kind == JStr("openIdConnect") && openId.JObj? then
      var x :- FromKeywords(OPEN_ID, openId.members);
      Some(Blank(leaf).(openId := Some(x)))
    else if kind == JStr("mutualTls") && mtls.JObj? then
      var x :- FromKeywords(MTLS, mtls.members);
      Some(Blank(leaf).(mtls := Some(x)))
    else Some(Blank(leaf))
  }

  function SchemeFromDict(d: Object): Option<Scheme> {
    SchemeFromParts(FromGet(SCHEME, d), GetOr(d, "scheme_type", NO_TEXT), Get(d, "api_key"), Get(d, "http_auth"),
                    Get(d, "oauth2"), Get(d, "open_id_connect"), Get(d, "mtls"))
  }

  predicate PartIsA(c: Class, x: Option<Flat>) {
    x.Some? ==> IsA(c, x.value)
  }

  predicate SchemeIsA(s: Scheme) {
    && IsA(SCHEME, s.leaf) && PartIsA(API_KEY, s.apiKey) && PartIsA(HTTP_AUTH, s.httpAuth)
    && (s.oauth2.Some? ==> OAuth2IsA(s.oauth2.value)) && PartIsA(OPEN_ID, s.openId) && PartIsA(MTLS, s.mtls)
  }

  predicate PartFull(kind: Json, name: string, c: Class, x: Option<Flat>) {
    x.Some? ==> kind == JStr(name) && Full(c, x.value)
  }

  /** Only the member that matches the scheme type is populated. */
  predicate SchemeFull(s: Scheme) {
    && Full(SCHEME, s.leaf)
    && "scheme_type" in s.leaf
    && var kind := s.leaf["scheme_type"];
    && PartFull(kind, "apiKey", API_KEY, s.apiKey)
    && PartFull(kind, "http", HTTP_AUTH, s.httpAuth)
    && (s.oauth2.Some? ==> kind == JStr("oauth2") && OAuth2Full(s.oauth2.value))
    && PartFull(kind, "openIdConnect", OPEN_ID, s.openId)
    && PartFull(kind, "mutualTls", MTLS, s.mtls)
  }

  lemma PartLookup(d: Object, key: string, x: Option<Object>, k: string)
    ensures Lookup(d + Part(key, x), k) == if k == key && x.Some? then Some(Member(x)) else Lookup(d, k)
  {
  }

  lemma PartsLookup(d0: Object, a: Option<Object>, h: Option<Object>, o: Option<Object>, c: Option<Object>,
                    m: Option<Object>, k: string)
    ensures Lookup(d0 + Part("api_key", a) + Part("http_auth", h) + Part("oauth2", o) + Part("open_id_connect", c)
                   + Part("mtls", m), k) ==
            if k == "mtls" && m.Some? then Some(Member(m))
            else if k == "open_id_connect" && c.Some? then Some(Member(c))
            else if k == "oauth2" && o.Some? then Some(Member(o))
            else if k == "http_auth" && h.Some? then Some(Member(h))
            else if k == "api_key" && a.Some? then Some(Member(a))
            else Lookup(d0, k)
  {
    var d1 := d0 + Part("api_key", a);
    var d2 := d1 + Part("http_auth", h);
    var d3 := d2 + Part("oauth2", o);
    var d4 := d3 + Part("open_id_connect", c);
    PartLookup(d0, "api_key", a, k);
    PartLookup(d1, "http_auth", h, k);
    PartLookup(d2, "oauth2", o, k);
    PartLookup(d3, "open_id_connect", c, k);
    PartLookup(d4, "mtls", m, k);
  }

  lemma SchemeLookup(s: Scheme, k: string)
    ensures Lookup(SchemeToDict(s), k) ==
            if k == "mtls" && s.mtls.Some? then Some(Member(FlatPart(s.mtls)))
            else if k == "open_id_connect" && s.openId.Some? then Some(Member(FlatPart(s.openId)))
            else if k == "oauth2" && s.oauth2.Some? then Some(Member(OAuth2Part(s.oauth2)))
            else if k == "http_auth" && s.httpAuth.Some? then Some(Member(FlatPart(s.httpAuth)))
            else if k == "api_key" && s.apiKey.Some? then Some(Member(FlatPart(s.apiKey)))
            else Lookup(FlatToDict(s.leaf), k)
  {
    PartsLookup(FlatToDict(s.leaf), FlatPart(s.apiKey), FlatPart(s.httpAuth), OAuth2Part(s.oauth2),
                FlatPart(s.openId), FlatPart(s.mtls), k);
  }

  lemma SchemeNames()
    ensures Names(SCHEME) == {"scheme_type", "description"} && DefaultOf(SCHEME, "scheme_type") == NO_TEXT
  {
    assert SCHEME == [Field("scheme_type", NO_TEXT), Field("description", JNull)];
    assert SCHEME[0] in SCHEME && SCHEME[1] in SCHEME;
  }

  lemma SchemeLeaf(s: Scheme)
    requires IsA(SCHEME, s.leaf)
    ensures var d := SchemeToDict(s);
            FromGet(SCHEME, d) == FromGet(SCHEME, FlatToDict(s.leaf))
            && GetOr(d, "scheme_type", NO_TEXT) == FromGet(SCHEME, d)["scheme_type"]
  {
    SchemeNames();
    var d := SchemeToDict(s);
    forall k | k in Names(SCHEME)
      ensures Lookup(d, k) == Lookup(FlatToDict(s.leaf), k)
    {
      SchemeLookup(s, k);
    }
    FromGetSame(SCHEME, d, FlatToDict(s.leaf));
  }

  lemma LeafLacks(s: Scheme, k: string)
    requires IsA(SCHEME, s.leaf) && k != "scheme_type" && k != "description"
    ensures Lookup(FlatToDict(s.leaf), k) == None
  {
    SchemeNames();
  }

  lemma SchemeMembers(s: Scheme)
    requires IsA(SCHEME, s.leaf)
    ensures var d := SchemeToDict(s);
            && Get(d, "api_key") == Member(FlatPart(s.apiKey))
            && Get(d, "http_auth") == Member(FlatPart(s.httpAuth))
            && Get(d, "oauth2") == Member(OAuth2Part(s.oauth2))
            && Get(d, "open_id_connect") == Member(FlatPart(s.openId))
            && Get(d, "mtls") == Member(FlatPart(s.mtls))
  {
    GetLookup(SchemeToDict(s));
    LeafLacks(s, "api_key");
    LeafLacks(s, "http_auth");
    LeafLacks(s, "oauth2");
    LeafLacks(s, "open_id_connect");
    LeafLacks(s, "mtls");
    SchemeLookup(s, "api_key");
    SchemeLookup(s, "http_auth");
    SchemeLookup(s, "oauth2");
    SchemeLookup(s, "open_id_connect");
    SchemeLookup(s, "mtls");
  }

  lemma GetLookup(d: Object)
    ensures forall k :: Get(d, k) == Lookup(d, k).GetOr(JNull)
  {
  }

  lemma PartRoundTrip(c: Class, x: Option<Flat>)
    requires PartIsA(c, x)
    ensures x.Some? ==>
              && FromKeywords(c, FlatToDict(x.value)).Some?
              && (FromKeywords(c, FlatToDict(x.value)) == x <==> Full(c, x.value))
  {
    if x.Some? {
      FlatRoundTrip(c, x.value);
    }
  }

  /** A member that is present reads back as itself exactly when it is full. */
  lemma MemberRoundTrip(c: Class, x: Option<Flat>)
    requires PartIsA(c, x)
    ensures var j := Member(FlatPart(x));
            && (j.JObj? <==> x.Some?)
            && (x.Some? ==> FromKeywords(c, j.members).Some? && (FromKeywords(c, j.members) == x <==> Full(c, x.value)))
  {
    PartRoundTrip(c, x);
  }

  lemma OAuth2Member(x: Option<OAuth2>)
    requires x.Some? ==> OAuth2IsA(x.value)
    ensures var j := Member(OAuth2Part(x));
            && (j.JObj? <==> x.Some?)
            && (x.Some? ==> (OAuth2FromDict(j.members) == x <==> OAuth2Full(x.value)))
  {
    if x.Some? {
      OAuth2RoundTrip(x.value);
    }
  }

  lemma SchemePartsRoundTrip(s: Scheme, leaf: Flat, kind: Json)
    requires SchemeIsA(s)
    ensures SchemeFromParts(leaf, kind, Member(FlatPart(s.apiKey)), Member(FlatPart(s.httpAuth)),
                            Member(OAuth2Part(s.oauth2)),
                            Member(FlatPart(s.openId)), Member(FlatPart(s.mtls))) == Some(s) <==>
            leaf == s.leaf && PartFull(kind, "apiKey", API_KEY, s.apiKey)
            && PartFull(kind, "http", HTTP_AUTH, s.httpAuth)
            && (s.oauth2.Some? ==> kind == JStr("oauth2") && OAuth2Full(s.oauth2.value))
            && PartFull(kind, "openIdConnect", OPEN_ID, s.openId) && PartFull(kind, "mutualTls", MTLS, s.mtls)
  {
    MemberRoundTrip(API_KEY, s.apiKey);
    MemberRoundTrip(HTTP_AUTH, s.httpAuth);
    OAuth2Member(s.oauth2);
    MemberRoundTrip(OPEN_ID, s.openId);
    MemberRoundTrip(MTLS, s.mtls);
    PartsAbstract(s, leaf, kind, Member(FlatPart(s.apiKey)), Member(FlatPart(s.httpAuth)), Member(OAuth2Part(s.oauth2)),
                  Member(FlatPart(s.openId)), Member(FlatPart(s.mtls)));
  }

  lemma PartsAbstract(s: Scheme, leaf: Flat, kind: Json, a: Json, h: Json, o: Json, c: Json, m: Json)
    requires (a.JObj? <==> s.apiKey.Some?) && (h.JObj? <==> s.httpAuth.Some?) && (o.JObj? <==> s.oauth2.Some?)
    requires (c.JObj? <==> s.openId.Some?) && (m.JObj? <==> s.mtls.Some?)
    ensures SchemeFromParts(leaf, kind, a, h, o, c, m) == Some(s) <==>
            && leaf == s.leaf
            && (s.apiKey.Some? ==> kind == JStr("apiKey") && FromKeywords(API_KEY, a.members) == s.apiKey)
            && (s.httpAuth.Some? ==> kind == JStr("http") && FromKeywords(HTTP_AUTH, h.members) == s.httpAuth)
            && (s.oauth2.Some? ==> kind == JStr("oauth2") && OAuth2FromDict(o.members) == s.oauth2)
            && (s.openId.Some? ==> kind == JStr("openIdConnect") && FromKeywords(OPEN_ID, c.members) == s.openId)
            && (s.mtls.Some? ==> kind == JStr("mutualTls") && FromKeywords(MTLS, m.members) == s.mtls)
  {
    var blank := Blank(leaf);
    if kind == JStr("apiKey") && a.JObj? {
      assert FromKeywords(API_KEY, a.members).Some? ==>
          SchemeFromParts(leaf, kind, a, h, o, c, m) == Some(blank.(apiKey := FromKeywords(API_KEY, a.members)));
    } else if kind == JStr("http") && h.JObj? {
      assert FromKeywords(HTTP_AUTH, h.members).Some? ==>
          SchemeFromParts(leaf, kind, a, h, o, c, m) == Some(blank.(httpAuth := FromKeywords(HTTP_AUTH, h.members)));
    } else if kind == JStr("oauth2") && o.JObj? {
      assert OAuth2FromDict(o.members).Some? ==>
          SchemeFromParts(leaf, kind, a, h, o, c, m) == Some(blank.(oauth2 := OAuth2FromDict(o.members)));
    } else if kind == JStr("openIdConnect") && c.JObj? {
      assert FromKeywords(OPEN_ID, c.members).Some? ==>
          SchemeFromParts(leaf, kind, a, h, o, c, m) == Some(blank.(openId := FromKeywords(OPEN_ID, c.members)));
    } else if kind == JStr("mutualTls") && m.JObj? {
      assert FromKeywords(MTLS, m.members).Some? ==>
          SchemeFromParts(leaf, kind, a, h, o, c, m) == Some(blank.(mtls := FromKeywords(MTLS, m.members)));
    } else {
      assert SchemeFromParts(leaf, kind, a, h, o, c, m) == Some(blank);
    }
  }

  lemma SchemeRoundTrip(s: Scheme)
    requires SchemeIsA(s)
    ensures SchemeFromDict(SchemeToDict(s)) == Some(s) <==> SchemeFull(s)
  {
    SchemeLeaf(s);
    SchemeMembers(s);
    SchemeNames();
    FlatRoundTrip(SCHEME, s.leaf);
    var leaf := FromGet(SCHEME, FlatToDict(s.leaf));
    SchemePartsRoundTrip(s, leaf, leaf["scheme_type"]);
  }

  // ---- the card -----------------------------------------------------------------------

  datatype Card = Card(leaf: Flat, interfaces: seq<Flat>, provider: Option<Flat>, capabilities: Capabilities,
                       schemes: map<string, Scheme>, requirements: seq<Flat>, skills: seq<Skill>, signatures: seq<Flat>)

  function SchemesToDict(schemes: map<string, Scheme>): Object { ToDicts(SchemeToDict, schemes) }

  function SchemesFromDict(j: Json): Option<map<string, Scheme>> { ParseDicts(SchemeFromDict, j) }

  function CardToDict(c: Card): Object {
    FlatToDict(c.leaf) + Part("provider", FlatPart(c.provider)) + map[
      "supported_interfaces" := ToList(FlatToDict, c.interfaces),
      "capabilities" := JObj(CapabilitiesToDict(c.capabilities)),
      "security_schemes" := JObj(SchemesToDict(c.schemes)),
      "security_requirements" := ToList(FlatToDict, c.requirements),
      "skills" := ToList(SkillToDict, c.skills),
      "signatures" := ToList(FlatToDict, c.signatures)]
  }

  /** The raw skills: the top-level list, or the one that v0.x cards keep under capabilities. */
  function RawSkills(d: Object): Json {
    if Get(d, "skills") != JNull then Get(d, "skills")
    else if GetOr(d, "capabilities", NO_DICT).JObj? then Get(GetOr(d, "capabilities", NO_DICT).members, "skills")
    else JNull
  }

  function ParseCapabilities(j: Json): Option<Capabilities> {
    if j.JObj? then CapabilitiesFromDict(j.members) else CapabilitiesFromDict(map[])
  }

  function ParseProvider(j: Json): Option<Option<Flat>> {
    if !j.JObj? then Some(None)
    else
      var p :- FromKeywords(PROVIDER, j.members);
      Some(Some(p))
  }

  function ParseRequirements(j: Json): Option<seq<Flat>> {
    if j == JNull then Some([])
    else
      var ds :- Dicts(j);
      TryMap(Flats(REQUIREMENT), ds)
  }

  function ParseList<T>(from: Object -> Option<T>, j: Json): Option<seq<T>> {
    var ds :- DictsOrEmpty(j);
    TryMap(from, ds)
  }

  function CardFromParts(leaf: Flat, interfaces: Json, skills: Json, capabilities: Json, provider: Json,
                         signatures: Json, schemes: Json, requirements: Json): Option<Card>
  {
    var i, s := ParseList(Flats(INTERFACE), interfaces), ParseList(SkillFromDict, skills);
    var c := ParseCapabilities(capabilities);
    var p, g := ParseProvider(provider), ParseList(Flats(SIGNATURE), signatures);
    var h, r := SchemesFromDict(schemes), ParseRequirements(requirements);
    if i.None? || s.None? || c.None? || p.None? || g.None? || h.None? || r.None? then None
    else Some(Card(leaf, i.value, p.value, c.value, h.value, r.value, s.value, g.value))
  }

  /** `_dict_to_agent_card`; None when it raises. */
  function CardFromDict(d: Object): Option<Card> {
    CardFromParts(FromGet(CARD, d), Get(d, "supported_interfaces"), RawSkills(d), GetOr(d, "capabilities", NO_DICT),
                  Get(d, "provider"), Get(d, "signatures"), Get(d, "security_schemes"), Get(d, "security_requirements"))
  }

  predicate AllA(c: Class, rs: seq<Flat>) {
    forall i :: 0 <= i < |rs| ==> IsA(c, rs[i])
  }

  predicate AllFull(c: Class, rs: seq<Flat>) {
    forall i :: 0 <= i < |rs| ==> Full(c, rs[i])
  }

  /** The card has the shape of the dataclasses. */
  predicate CardIsA(c: Card) {
    && IsA(CARD, c.leaf) && AllA(INTERFACE, c.interfaces) && PartIsA(PROVIDER, c.provider)
    && WithListIsA(FLAGS, EXTENSION, c.capabilities)
    && (forall name :: name in c.schemes ==> SchemeIsA(c.schemes[name]))
    && AllA(REQUIREMENT, c.requirements)
    && (forall i :: 0 <= i < |c.skills| ==> WithListIsA(SKILL, REQUIREMENT, c.skills[i]))
    && AllA(SIGNATURE, c.signatures)
  }

  /** No required attribute is None, every scheme populates only its matching member, and no
      OAuth flows are present but all empty. */
  predicate CardFull(c: Card) {
    && Full(CARD, c.leaf) && AllFull(INTERFACE, c.interfaces) && (c.provider.Some? ==> Full(PROVIDER, c.provider.value))
    && WithListFull(FLAGS, EXTENSION, c.capabilities)
    && (forall name :: name in c.schemes ==> SchemeFull(c.schemes[name]))
    && AllFull(REQUIREMENT, c.requirements)
    && (forall i :: 0 <= i < |c.skills| ==> WithListFull(SKILL, REQUIREMENT, c.skills[i]))
    && AllFull(SIGNATURE, c.signatures)
  }

  lemma SkillsRoundTrip(skills: seq<Skill>)
    requires forall i :: 0 <= i < |skills| ==> WithListIsA(SKILL, REQUIREMENT, skills[i])
    ensures ParseList(SkillFromDict, ToList(SkillToDict, skills)) == Some(skills) <==>
            forall i :: 0 <= i < |skills| ==> WithListFull(SKILL, REQUIREMENT, skills[i])
  {
    ListRoundTrip(SkillFromDict, SkillToDict, skills);
    forall i | 0 <= i < |skills|
      ensures SkillFromDict(SkillToDict(skills[i])) == Some(skills[i]) <==> WithListFull(SKILL, REQUIREMENT, skills[i])
    {
      assert "security_requirements" !in Names(SKILL);
      WithListRoundTrip(SKILL, "security_requirements", REQUIREMENT, skills[i]);
    }
  }

  lemma SchemesRoundTrip(schemes: map<string, Scheme>)
    requires forall name :: name in schemes ==> SchemeIsA(schemes[name])
    ensures SchemesFromDict(JObj(SchemesToDict(schemes))) == Some(schemes) <==>
            forall name :: name in schemes ==> SchemeFull(schemes[name])
  {
    forall name | name in schemes
      ensures SchemeFromDict(SchemeToDict(schemes[name])) == Some(schemes[name]) <==> SchemeFull(schemes[name])
    {
      SchemeRoundTrip(schemes[name]);
    }
    DictsRoundTrip(SchemeFromDict, SchemeToDict, schemes);
  }

  lemma CardLookup(c: Card, k: string)
    ensures Lookup(CardToDict(c), k) ==
            if k == "signatures" then Some(ToList(FlatToDict, c.signatures))
            else if k == "skills" then Some(ToList(SkillToDict, c.skills))
            else if k == "security_requirements" then Some(ToList(FlatToDict, c.requirements))
            else if k == "security_schemes" then Some(JObj(SchemesToDict(c.schemes)))
            else if k == "capabilities" then Some(JObj(CapabilitiesToDict(c.capabilities)))
            else if k == "supported_interfaces" then Some(ToList(FlatToDict, c.interfaces))
            else if k == "provider" && c.provider.Some? then Some(Member(FlatPart(c.provider)))
            else Lookup(FlatToDict(c.leaf), k)
  {
  }

  predicate IsPart(k: string) {
    || k == "provider" || k == "supported_interfaces" || k == "capabilities" || k == "security_schemes"
    || k == "security_requirements" || k == "skills" || k == "signatures"
  }

  lemma CardNames(k: string)
    requires k in Names(CARD)
    ensures !IsPart(k)
  {
    var f :| f in CARD && f.name == k;
  }

  lemma CardParts(c: Card)
    requires IsA(CARD, c.leaf)
    ensures var d := CardToDict(c);
            && Get(d, "provider") == Member(FlatPart(c.provider))
            && Get(d, "supported_interfaces") == ToList(FlatToDict, c.interfaces)
            && GetOr(d, "capabilities", NO_DICT) == JObj(CapabilitiesToDict(c.capabilities))
            && Get(d, "security_schemes") == JObj(SchemesToDict(c.schemes))
            && Get(d, "security_requirements") == ToList(FlatToDict, c.requirements)
            && RawSkills(d) == ToList(SkillToDict, c.skills)
            && Get(d, "signatures") == ToList(FlatToDict, c.signatures)
  {
    CardLookup(c, "provider");
    if "provider" in Names(CARD) {
      CardNames("provider");
    }
    CardLookup(c, "supported_interfaces");
    CardLookup(c, "capabilities");
    CardLookup(c, "security_schemes");
    CardLookup(c, "security_requirements");
    CardLookup(c, "skills");
    CardLookup(c, "signatures");
  }

  lemma CardKeys(c: Card)
    requires IsA(CARD, c.leaf)
    ensures var d := CardToDict(c);
            && FromGet(CARD, d) == FromGet(CARD, FlatToDict(c.leaf))
            && Get(d, "provider") == Member(FlatPart(c.provider))
            && Get(d, "supported_interfaces") == ToList(FlatToDict, c.interfaces)
            && GetOr(d, "capabilities", NO_DICT) == JObj(CapabilitiesToDict(c.capabilities))
            && Get(d, "security_schemes") == JObj(SchemesToDict(c.schemes))
            && Get(d, "security_requirements") == ToList(FlatToDict, c.requirements)
            && RawSkills(d) == ToList(SkillToDict, c.skills)
            && Get(d, "signatures") == ToList(FlatToDict, c.signatures)
  {
    var d := CardToDict(c);
    forall k | k in Names(CARD)
      ensures Lookup(d, k) == Lookup(FlatToDict(c.leaf), k)
    {
      CardNames(k);
      CardLookup(c, k);
    }
    FromGetSame(CARD, d, FlatToDict(c.leaf));
    CardParts(c);
  }

  lemma CapabilitiesRoundTrip(x: Capabilities)
    requires WithListIsA(FLAGS, EXTENSION, x)
    ensures ParseCapabilities(JObj(CapabilitiesToDict(x))) == Some(x) <==> WithListFull(FLAGS, EXTENSION, x)
  {
    assert "extensions" !in Names(FLAGS);
    WithListRoundTrip(FLAGS, "extensions", EXTENSION, x);
  }

  lemma FlatListRoundTrip(c: Class, rs: seq<Flat>)
    requires AllA(c, rs)
    ensures ParseList(Flats(c), ToList(FlatToDict, rs)) == Some(rs) <==> AllFull(c, rs)
  {
    FlatsRoundTrip(c, rs);
  }

  lemma RequirementsRoundTrip(rs: seq<Flat>)
    requires AllA(REQUIREMENT, rs)
    ensures ParseRequirements(ToList(FlatToDict, rs)) == Some(rs) <==> AllFull(REQUIREMENT, rs)
  {
    FlatsRoundTrip(REQUIREMENT, rs);
  }

  lemma ProviderRoundTrip(p: Option<Flat>)
    requires PartIsA(PROVIDER, p)
    ensures ParseProvider(Member(FlatPart(p))) == Some(p) <==> (p.Some? ==> Full(PROVIDER, p.value))
  {
    PartRoundTrip(PROVIDER, p);
  }

  lemma CardFromPartsExact(c: Card, leaf: Flat, interfaces: Json, skills: Json, capabilities: Json, provider: Json,
                           signatures: Json, schemes: Json, requirements: Json)
    ensures (CardFromParts(leaf, interfaces, skills, capabilities, provider, signatures, schemes, requirements)
             == Some(c)) <==>
            && leaf == c.leaf && ParseList(Flats(INTERFACE), interfaces) == Some(c.interfaces)
            && ParseList(SkillFromDict, skills) == Some(c.skills)
            && ParseCapabilities(capabilities) == Some(c.capabilities)
            && ParseProvider(provider) == Some(c.provider)
            && ParseList(Flats(SIGNATURE), signatures) == Some(c.signatures)
            && SchemesFromDict(schemes) == Some(c.schemes) && ParseRequirements(requirements) == Some(c.requirements)
  {
  }

  lemma CardPartsRoundTrip(c: Card)
    requires CardIsA(c)
    ensures (&& FromGet(CARD, FlatToDict(c.leaf)) == c.leaf
             && ParseList(Flats(INTERFACE), ToList(FlatToDict, c.interfaces)) == Some(c.interfaces)
             && ParseList(SkillFromDict, ToList(SkillToDict, c.skills)) == Some(c.skills)
             && ParseCapabilities(JObj(CapabilitiesToDict(c.capabilities))) == Some(c.capabilities)
             && ParseProvider(Member(FlatPart(c.provider))) == Some(c.provider)
             && ParseList(Flats(SIGNATURE), ToList(FlatToDict, c.signatures)) == Some(c.signatures)
             && SchemesFromDict(JObj(SchemesToDict(c.schemes))) == Some(c.schemes)
             && ParseRequirements(ToList(FlatToDict, c.requirements)) == Some(c.requirements)) <==> CardFull(c)
  {
    FlatRoundTrip(CARD, c.leaf);
    FlatListRoundTrip(INTERFACE, c.interfaces);
    RequirementsRoundTrip(c.requirements);
    FlatListRoundTrip(SIGNATURE, c.signatures);
    SkillsRoundTrip(c.skills);
    SchemesRoundTrip(c.schemes);
    ProviderRoundTrip(c.provider);
    CapabilitiesRoundTrip(c.capabilities);
  }

  /** A card survives the trip through its dict exactly when it is full: no required attribute is
      None, each security scheme populates only the member of its type, and OAuth flows that are
      present are not all empty. */
  lemma CardRoundTrip(c: Card)
    requires CardIsA(c)
    ensures CardFromDict(CardToDict(c)) == Some(c) <==> CardFull(c)
  {
    CardKeys(c);
    CardPartsRoundTrip(c);
    CardFromPartsExact(c, FromGet(CARD, FlatToDict(c.leaf)), ToList(FlatToDict, c.interfaces),
                       ToList(SkillToDict, c.skills), JObj(CapabilitiesToDict(c.capabilities)),
                       Member(FlatPart(c.provider)), ToList(FlatToDict, c.signatures), JObj(SchemesToDict(c.schemes)),
                           ToList(FlatToDict, c.requirements));
  }

  lemma CapabilitiesIgnoreSkills(caps: Object, skills: Json)
    ensures ParseCapabilities(JObj(caps["skills" := skills])) == ParseCapabilities(JObj(caps - {"skills"}))
  {
    var a, b := caps["skills" := skills], caps - {"skills"};
    assert "skills" !in Names(FLAGS);
    FromGetSame(FLAGS, a, b);
    assert Get(a, "extensions") == Get(b, "extensions");
  }

  lemma SameParts(leaf: Flat, interfaces: Json, skills: Json, capabilities: Json, capabilities': Json, provider: Json,
                  signatures: Json, schemes: Json, requirements: Json)
    requires ParseCapabilities(capabilities) == ParseCapabilities(capabilities')
    ensures CardFromParts(leaf, interfaces, skills, capabilities, provider, signatures, schemes, requirements) ==
            CardFromParts(leaf, interfaces, skills, capabilities', provider, signatures, schemes, requirements)
  {
  }

  /** Skills at the top win over skills under capabilities. */
  lemma TopSkillsWin(d: Object, caps: Object, skills: Json)
    requires "skills" in d && d["skills"] != JNull
    ensures CardFromDict(d["capabilities" := JObj(caps["skills" := skills])]) ==
            CardFromDict(d["capabilities" := JObj(caps - {"skills"})])
  {
    var a, b := d["capabilities" := JObj(caps["skills" := skills])], d["capabilities" := JObj(caps - {"skills"})];
    forall k | k in Names(CARD)
      ensures Lookup(a, k) == Lookup(b, k)
    {
      CardNames(k);
    }
    FromGetSame(CARD, a, b);
    CapabilitiesIgnoreSkills(caps, skills);
    SameParts(FromGet(CARD, a), Get(a, "supported_interfaces"), RawSkills(a), JObj(caps["skills" := skills]),
              JObj(caps - {"skills"}), Get(a, "provider"), Get(a, "signatures"), Get(a, "security_schemes"),
              Get(a, "security_requirements"));
  }

  /** A part that is null reads like one that is missing. */
  lemma NullIsMissing(d: Object, k: string)
    requires IsPart(k) && k != "capabilities"
    ensures CardFromDict(d[k := JNull]) == CardFromDict(d - {k})
  {
    var a, b := d[k := JNull], d - {k};
    forall n | n in Names(CARD)
      ensures Lookup(a, n) == Lookup(b, n)
    {
      CardNames(n);
    }
    FromGetSame(CARD, a, b);
    SameRead(a, b, k);
  }

  lemma SameRead(a: Object, b: Object, k: string)
    requires k != "capabilities" && Get(a, k) == Get(b, k) && FromGet(CARD, a) == FromGet(CARD, b)
    requires forall n :: n != k ==> Lookup(a, n) == Lookup(b, n)
    ensures CardFromDict(a) == CardFromDict(b)
  {
    GetLookup(a);
    GetLookup(b);
    assert forall n :: Get(a, n) == Get(b, n);
    assert GetOr(a, "capabilities", NO_DICT) == GetOr(b, "capabilities", NO_DICT) by {
      assert Lookup(a, "capabilities") == Lookup(b, "capabilities");
    }
  }

  function LegacyForm(d: Object, caps: Object, skills: Json): Object {
    (d - {"skills"})["capabilities" := JObj(caps["skills" := skills])]
  }

  function CurrentForm(d: Object, caps: Object, skills: Json): Object {
    d["skills" := skills]["capabilities" := JObj(caps - {"skills"})]
  }

  lemma FormsAgree(d: Object, caps: Object, skills: Json, k: string)
    requires k != "skills" && k != "capabilities"
    ensures Lookup(LegacyForm(d, caps, skills), k) == Lookup(CurrentForm(d, caps, skills), k)
  {
  }

  lemma FormsLeaf(d: Object, caps: Object, skills: Json)
    ensures FromGet(CARD, LegacyForm(d, caps, skills)) == FromGet(CARD, CurrentForm(d, caps, skills))
  {
    forall k | k in Names(CARD)
      ensures Lookup(LegacyForm(d, caps, skills), k) == Lookup(CurrentForm(d, caps, skills), k)
    {
      CardNames(k);
      FormsAgree(d, caps, skills, k);
    }
    FromGetSame(CARD, LegacyForm(d, caps, skills), CurrentForm(d, caps, skills));
  }

  lemma FormsSkills(d: Object, caps: Object, skills: Json)
    ensures RawSkills(LegacyForm(d, caps, skills)) == RawSkills(CurrentForm(d, caps, skills))
  {
  }

  lemma FormsParts(d: Object, caps: Object, skills: Json)
    ensures var v0, v1 := LegacyForm(d, caps, skills), CurrentForm(d, caps, skills);
            && Get(v0, "supported_interfaces") == Get(v1, "supported_interfaces")
            && Get(v0, "provider") == Get(v1, "provider")
            && Get(v0, "signatures") == Get(v1, "signatures")
            && Get(v0, "security_schemes") == Get(v1, "security_schemes")
            && Get(v0, "security_requirements") == Get(v1, "security_requirements")
            && GetOr(v0, "capabilities", NO_DICT) == JObj(caps["skills" := skills])
            && GetOr(v1, "capabilities", NO_DICT) == JObj(caps - {"skills"})
  {
    FormsAgree(d, caps, skills, "supported_interfaces");
    FormsAgree(d, caps, skills, "provider");
    FormsAgree(d, caps, skills, "signatures");
    FormsAgree(d, caps, skills, "security_schemes");
    FormsAgree(d, caps, skills, "security_requirements");
  }

  /** A v0.x dict, with its skills under capabilities, parses like its v1.0 form with the skills at
      the top, for every dict and every value of the skills, errors included. */
  lemma LegacySkills(d: Object, caps: Object, skills: Json)
    ensures CardFromDict(LegacyForm(d, caps, skills)) == CardFromDict(CurrentForm(d, caps, skills))
  {
    var v := LegacyForm(d, caps, skills);
    FormsLeaf(d, caps, skills);
    FormsSkills(d, caps, skills);
    FormsParts(d, caps, skills);
    CapabilitiesIgnoreSkills(caps, skills);
    SameParts(FromGet(CARD, v), Get(v, "supported_interfaces"), RawSkills(v), JObj(caps["skills" := skills]),
              JObj(caps - {"skills"}),
              Get(v, "provider"), Get(v, "signatures"), Get(v, "security_schemes"), Get(v, "security_requirements"));
  }

  /** `_dict_to_single_security_scheme`, which sets one local per member. */
  method DictToSecurityScheme(d: Object) returns (s: Option<Scheme>)
    ensures s == SchemeFromDict(d)
  {
    var kind := GetOr(d, "scheme_type", NO_TEXT);
    var apiKey: Option<Flat>, httpAuth: Option<Flat> := None, None;
    var openId: Option<Flat>, mtls: Option<Flat> := None, None;
    var oauth2: Option<OAuth2> := None;
    if kind == JStr("apiKey") && Get(d, "api_key").JObj? {
      apiKey := FromKeywords(API_KEY, d["api_key"].members);
      if apiKey.None? { return None; }
    } else if kind == JStr("http") && Get(d, "http_auth").JObj? {
      httpAuth := FromKeywords(HTTP_AUTH, d["http_auth"].members);
      if httpAuth.None? { return None; }
    } else if kind == JStr("oauth2") && Get(d, "oauth2").JObj? {
      oauth2 := OAuth2FromDict(d["oauth2"].members);
      if oauth2.None? { return None; }
    } else if kind == JStr("openIdConnect") && Get(d, "open_id_connect").JObj? {
      openId := FromKeywords(OPEN_ID, d["open_id_connect"].members);
      if openId.None? { return None; }
    } else if kind == JStr("mutualTls") && Get(d, "mtls").JObj? {
      mtls := FromKeywords(MTLS, d["mtls"].members);
      if mtls.None? { return None; }
    }
    s := Some(Scheme(FromGet(SCHEME, d), apiKey, httpAuth, oauth2, openId, mtls));
  }
}
