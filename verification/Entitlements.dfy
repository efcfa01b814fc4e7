/** Feature entitlements: which features each role sees, and their round trip through the auth cache. */
module Entitlements {
  import opened Common
  import opened Decimals

  const FEATURE_KEYS := [
    "machines", "machine_health", "calendar", "analytics", "reports", "waste_analysis", "copilot", "rules",
    "settings", "notification_sms", "notification_whatsapp"]

  const ORG_ADMIN := "org_admin"
  const PLANT_MANAGER := "plant_manager"
  const OPERATOR := "operator"
  const VIEWER := "viewer"
  const ROLE_KEYS := [ORG_ADMIN, PLANT_MANAGER, OPERATOR, VIEWER]

  const ORG_ADMIN_BASELINE := ["machines", "calendar", "rules", "settings"]
  const PLANT_MANAGER_BASELINE := ["machines", "rules", "settings"]
  const OPERATOR_BASELINE := ["machines", "rules"]
  const VIEWER_BASELINE := ["machines"]
  const DELEGATABLE := ["analytics", "reports", "waste_analysis"]
  const AUTO_FEATURE := "machine_health"

  datatype Result<+T> = Ok(value: T) | InvalidFeature(feature: string) | InvalidRoles(roles: set<string>)

  type Matrix = map<string, seq<string>>

  // ----- Normalisation of feature lists

  /** The first occurrence of every element, in order. */
  function Unique(xs: seq<string>): seq<string> {
    if xs == [] then []
    else
      var init, last := xs[..|xs| - 1], xs[|xs| - 1];
      if last in init then Unique(init) else Unique(init) + [last]
  }

  predicate NoDuplicates(xs: seq<string>) {
    forall i, j :: 0 <= i < j < |xs| ==> xs[i] != xs[j]
  }

  lemma {:induction false} UniqueSpec(xs: seq<string>)
    ensures NoDuplicates(Unique(xs))
    ensures forall x :: x in Unique(xs) <==> x in xs
  {
    if xs != [] {
      var init, last := xs[..|xs| - 1], xs[|xs| - 1];
      assert xs == init + [last];
      UniqueSpec(init);
    }
  }

  method UniqueOrdered(features: seq<string>) returns (ordered: seq<string>)
    ensures ordered == Unique(features)
  {
    ordered := [];
    var seen: set<string> := {};
    for i := 0 to |features|
      invariant ordered == Unique(features[..i])
      invariant forall x :: x in seen <==> x in features[..i]
    {
      assert features[..i + 1][..i] == features[..i];
      if features[i] in seen {
        continue;
      }
      seen := seen + {features[i]};
      ordered := ordered + [features[i]];
    }
    assert features[..|features|] == features;
  }

  /** The features without repeats, or the first one that is not known. */
  function Normalized(features: seq<string>): Result<seq<string>> {
    if features == [] then Ok([])
    else
      var init, last := features[..|features| - 1], features[|features| - 1];
      match Normalized(init)
      case Ok(done) =>
        if last !in FEATURE_KEYS then InvalidFeature(last)
        else if last in init then Ok(done) else Ok(done + [last])
      case bad => bad
  }

  lemma {:induction false} NormalizedSpec(features: seq<string>)
    ensures (forall f :: f in features ==> f in FEATURE_KEYS) <==> Normalized(features).Ok?
    ensures Normalized(features).Ok? ==> Normalized(features).value == Unique(features)
  {
    hide FEATURE_KEYS;
    if features != [] {
      var init, last := features[..|features| - 1], features[|features| - 1];
      assert features == init + [last];
      NormalizedSpec(init);
    }
  }

  lemma {:induction false} ErrorSticks(features: seq<string>, n: nat)
    requires n <= |features| && !Normalized(features[..n]).Ok?
    ensures Normalized(features) == Normalized(features[..n])
    decreases |features|
  {
    if n < |features| {
      var init := features[..|features| - 1];
      assert init[..n] == features[..n];
      ErrorSticks(init, n);
    } else {
      assert features[..n] == features;
    }
  }

  method NormalizeFeatureKeys(features: seq<string>) returns (r: Result<seq<string>>)
    ensures r == Normalized(features)
  {
    var normalized: seq<string> := [];
    var seen: set<string> := {};
    for i := 0 to |features|
      invariant Normalized(features[..i]) == Ok(normalized)
      invariant forall x :: x in seen <==> x in features[..i]
    {
      assert features[..i + 1][..i] == features[..i];
      if features[i] !in FEATURE_KEYS {
        ErrorSticks(features, i + 1);
        return InvalidFeature(features[i]);
      }
      if features[i] in seen {
        continue;
      }
      seen := seen + {features[i]};
      normalized := normalized + [features[i]];
    }
    assert features[..|features|] == features;
    return Ok(normalized);
  }

  function RowOf(matrix: Matrix, role: string): seq<string> {
    if role in matrix then matrix[role] else []
  }

  /** The first role, in the given order, whose list does not normalise; otherwise all lists, by role. */
  function NormalizedRows(matrix: Matrix, roles: seq<string>): Result<Matrix> {
    if roles == [] then Ok(map[])
    else
      match NormalizedRows(matrix, roles[..|roles| - 1])
      case Ok(done) =>
        (match Normalized(RowOf(matrix, roles[|roles| - 1]))
         case Ok(row) => Ok(done[roles[|roles| - 1] := row])
         case InvalidFeature(f) => InvalidFeature(f)
         case InvalidRoles(rs) => InvalidRoles(rs))
      case bad => bad
  }

  function NormalizedMatrix(matrix: Matrix): Result<Matrix> {
    var unknown := set role | role in matrix && role !in ROLE_KEYS;
    if unknown != {} then InvalidRoles(unknown) else NormalizedRows(matrix, ROLE_KEYS)
  }

  // ----- The entitlement state

  datatype Entitlements = Entitlements(
    grants: seq<string>, matrix: Matrix, available: seq<string>, effective: Matrix, version: int)

  function Auto(grants: seq<string>): seq<string> {
    if AUTO_FEATURE in grants then [AUTO_FEATURE] else []
  }

  function Delegated(grants: seq<string>, row: seq<string>): seq<string> {
    if row == [] then []
    else
      var init, last := row[..|row| - 1], row[|row| - 1];
      Delegated(grants, init) + if last in grants && last in DELEGATABLE then [last] else []
  }

  lemma {:induction false} DelegatedSpec(grants: seq<string>, row: seq<string>)
    ensures forall f :: f in Delegated(grants, row) <==> f in row && f in grants && f in DELEGATABLE
  {
    hide DELEGATABLE;
    if row != [] {
      assert row == row[..|row| - 1] + [row[|row| - 1]];
      DelegatedSpec(grants, row[..|row| - 1]);
    }
  }

  /** The features each role ends up with, given the organisation's grants and what is delegated to plant managers. */
  function OrgAdminFeatures(grants: seq<string>): seq<string> {
    Unique(ORG_ADMIN_BASELINE + grants)
  }

  function PlantManagerFeatures(grants: seq<string>, row: seq<string>): seq<string> {
    Unique(PLANT_MANAGER_BASELINE + Auto(grants) + Delegated(grants, row))
  }

  function OperatorFeatures(grants: seq<string>): seq<string> {
    Unique(OPERATOR_BASELINE + Auto(grants))
  }

  function ViewerFeatures(grants: seq<string>): seq<string> {
    Unique(VIEWER_BASELINE + Auto(grants))
  }

  function Effective(grants: seq<string>, matrix: Matrix): Matrix {
    map[ORG_ADMIN := OrgAdminFeatures(grants),
        PLANT_MANAGER := PlantManagerFeatures(grants, RowOf(matrix, PLANT_MANAGER)),
        OPERATOR := OperatorFeatures(grants),
        VIEWER := ViewerFeatures(grants)]
  }

  /** A super admin counts as an organisation admin; an unknown role as a viewer. */
  function ResolvedRole(role: string): string {
    if role == "super_admin" then ORG_ADMIN else if role in ROLE_KEYS then role else VIEWER
  }

  function Build(role: string, grants: seq<string>, matrix: Matrix, version: int): Result<Entitlements> {
    match Normalized(grants)
    case Ok(g) =>
      (match NormalizedMatrix(matrix)
       case Ok(m) => Ok(Entitlements(g, m, RowOf(Effective(g, m), ResolvedRole(role)), Effective(g, m), version))
       case InvalidFeature(f) => InvalidFeature(f)
       case InvalidRoles(rs) => InvalidRoles(rs))
    case InvalidFeature(f) => InvalidFeature(f)
    case InvalidRoles(rs) => InvalidRoles(rs)
  }

  predicate Within(xs: seq<string>, ys: seq<string>) {
    forall x :: x in xs ==> x in ys
  }

  /**
   Roles are ordered by what they see: for all grants and all delegations, a viewer's features are among an
   operator's, those among a plant manager's, and those among an organisation admin's; none is listed twice.
   */
  lemma {:induction false} RolesAreOrdered(grants: seq<string>, row: seq<string>)
    ensures Within(ViewerFeatures(grants), OperatorFeatures(grants))
    ensures Within(OperatorFeatures(grants), PlantManagerFeatures(grants, row))
    ensures Within(PlantManagerFeatures(grants, row), OrgAdminFeatures(grants))
    ensures NoDuplicates(ViewerFeatures(grants)) && NoDuplicates(OperatorFeatures(grants))
    ensures NoDuplicates(PlantManagerFeatures(grants, row)) && NoDuplicates(OrgAdminFeatures(grants))
  {
    hide Unique, NoDuplicates, Delegated;
    DelegatedSpec(grants, row);
    UniqueSpec(VIEWER_BASELINE + Auto(grants));
    UniqueSpec(OPERATOR_BASELINE + Auto(grants));
    UniqueSpec(PLANT_MANAGER_BASELINE + Auto(grants) + Delegated(grants, row));
    UniqueSpec(ORG_ADMIN_BASELINE + grants);
  }

  lemma {:induction false} RoleKeysDiffer()
    ensures |ORG_ADMIN| == 9 && |PLANT_MANAGER| == 13 && |OPERATOR| == 8 && |VIEWER| == 6
  {
  }

  /** The same, of the state that is built; what the caller gets is the effective list of the role it resolves to. */
  lemma {:induction false} BuiltStateOrdered(role: string, grants: seq<string>, matrix: Matrix, version: int)
    requires Build(role, grants, matrix, version).Ok?
    ensures var e := Build(role, grants, matrix, version).value;
      && e.effective.Keys == {ORG_ADMIN, PLANT_MANAGER, OPERATOR, VIEWER}
      && Within(e.effective[VIEWER], e.effective[OPERATOR])
      && Within(e.effective[OPERATOR], e.effective[PLANT_MANAGER])
      && Within(e.effective[PLANT_MANAGER], e.effective[ORG_ADMIN])
      && (forall r :: r in e.effective ==> NoDuplicates(e.effective[r]))
      && e.available == RowOf(e.effective, ResolvedRole(role))
      && NoDuplicates(e.grants) && (forall f :: f in e.grants <==> f in grants)
  {
    hide Within, NoDuplicates, NormalizedMatrix, Normalized, ResolvedRole, Unique,
         OrgAdminFeatures, PlantManagerFeatures, OperatorFeatures, ViewerFeatures,
         ORG_ADMIN, PLANT_MANAGER, OPERATOR, VIEWER;
    var e := Build(role, grants, matrix, version).value;
    RoleKeysDiffer();
    RolesAreOrdered(e.grants, RowOf(e.matrix, PLANT_MANAGER));
    NormalizedSpec(grants);
    UniqueSpec(grants);
  }

  /**
   A plant manager sees beyond the baseline exactly machine health, when granted, and what was both granted and
   delegated.
   */
  lemma {:induction false} PlantManagerSeesExactly(grants: seq<string>, row: seq<string>, f: string)
    ensures f in PlantManagerFeatures(grants, row) <==>
            f in PLANT_MANAGER_BASELINE || (f == AUTO_FEATURE && f in grants)
            || (f in row && f in grants && f in DELEGATABLE)
  {
    hide Unique, Delegated, PLANT_MANAGER_BASELINE, DELEGATABLE, AUTO_FEATURE;
    DelegatedSpec(grants, row);
    UniqueSpec(PLANT_MANAGER_BASELINE + Auto(grants) + Delegated(grants, row));
  }

  // ----- Through the cache

  datatype Json = Null | Number(value: int) | Text(text: string) | Array(items: seq<Json>)
                  | Object(fields: map<string, Json>)

  function ToArray(xs: seq<string>): Json {
    Array(seq(|xs|, i requires 0 <= i < |xs| => Text(xs[i])))
  }

  function ToObject(m: Matrix): Json {
    Object(map role | role in m :: ToArray(m[role]))
  }

  /** The cached form of an entitlement state. */
  function Serialize(e: Option<Entitlements>): Json {
    match e
    case None => Null
    case Some(v) =>
      Object(map["premium_feature_grants" := ToArray(v.grants),
                 "role_feature_matrix" := ToObject(v.matrix),
                 "available_features" := ToArray(v.available),
                 "effective_features_by_role" := ToObject(v.effective),
                 "entitlements_version" := Number(v.version)])
  }

  /** None stands for the TypeError of a malformed value. */
  function FromItems(items: seq<Json>): Option<seq<string>> {
    if items == [] then Some([])
    else
      match FromItems(items[..|items| - 1])
      case None => None
      case Some(init) => if items[|items| - 1].Text? then Some(init + [items[|items| - 1].text]) else None
  }

  function FromArray(j: Json): Option<seq<string>> {
    match j
    case Null => Some([])
    case Array(items) => FromItems(items)
    case _ => None
  }

  function FromObject(j: Json): Option<Matrix> {
    match j
    case Null => Some(map[])
    case Object(fields) =>
      if forall role :: role in fields ==> FromArray(fields[role]).Some?
      then Some(map role | role in fields :: FromArray(fields[role]).value) else None
    case _ => None
  }

  function FromNumber(j: Json): Option<int> {
    match j
    case Null => Some(0)
    case Number(n) => Some(n)
    case _ => None
  }

  /** A missing key reads like a null. */
  function Get(fields: map<string, Json>, key: string): Json {
    if key in fields then fields[key] else Null
  }

  function Deserialize(j: Json): Option<Option<Entitlements>> {
    match j
    case Null => Some(None)
    case Object(fields) =>
      var grants := FromArray(Get(fields, "premium_feature_grants"));
      var matrix := FromObject(Get(fields, "role_feature_matrix"));
      var available := FromArray(Get(fields, "available_features"));
      var effective := FromObject(Get(fields, "effective_features_by_role"));
      var version := FromNumber(Get(fields, "entitlements_version"));
      if grants.Some? && matrix.Some? && available.Some? && effective.Some? && version.Some?
      then Some(Some(Entitlements(grants.value, matrix.value, available.value, effective.value, version.value)))
      else None
    case _ => None
  }

  lemma {:induction false} ArrayRoundTrip(xs: seq<string>)
    ensures FromArray(ToArray(xs)) == Some(xs)
  {
    if xs != [] {
      var init := xs[..|xs| - 1];
      ArrayRoundTrip(init);
      assert ToArray(xs).items[..|xs| - 1] == ToArray(init).items;
      assert xs == init + [xs[|xs| - 1]];
    }
  }

  lemma {:induction false} ObjectRoundTrip(m: Matrix)
    ensures FromObject(ToObject(m)) == Some(m)
  {
    forall role | role in m ensures FromArray(ToArray(m[role])) == Some(m[role]) {
      ArrayRoundTrip(m[role]);
    }
    assert FromObject(ToObject(m)).value == m;
  }

  lemma {:induction false} EntitlementsRoundTrip(e: Option<Entitlements>)
    ensures Deserialize(Serialize(e)) == Some(e)
  {
    hide FromArray, ToArray, FromObject, ToObject;
    if e.Some? {
      ArrayRoundTrip(e.value.grants);
      ArrayRoundTrip(e.value.available);
      ObjectRoundTrip(e.value.matrix);
      ObjectRoundTrip(e.value.effective);
    }
  }

  // ----- The auth cache

  const ENTITLEMENTS_FIELD := "tenant_feature_entitlements"

  /** A user's current auth state: its plain fields, and the entitlements of the tenant. */
  datatype AuthState = AuthState(fields: map<string, Json>, entitlements: Option<Entitlements>)

  /** JSON text, as functions of the cache's client: a writer and its inverse. */
  datatype Codec = Codec(dumps: Json -> string, loads: string -> Option<Json>)

  ghost predicate Lossless(c: Codec) {
    forall j: Json :: c.loads(c.dumps(j)) == Some(j)
  }

  function CacheKey(user: string, permissions: int, version: int): string {
    "auth:state:" + user + ":" + IntText(permissions) + ":" + IntText(version)
  }

  function SerializeState(s: AuthState): map<string, Json> {
    s.fields[ENTITLEMENTS_FIELD := Serialize(s.entitlements)]
  }

  function DeserializeState(fields: map<string, Json>): Option<AuthState> {
    match Deserialize(Get(fields, ENTITLEMENTS_FIELD))
    case None => None
    case Some(e) => Some(AuthState(fields - {ENTITLEMENTS_FIELD}, e))
  }

  function SetCached(c: Codec, entries: map<string, string>, key: string, s: AuthState): map<string, string> {
    entries[key := c.dumps(Object(SerializeState(s)))]
  }

  /** Nothing comes back for a missing entry, a text that is not a JSON object, or malformed entitlements. */
  function GetCached(c: Codec, entries: map<string, string>, key: string): Option<AuthState> {
    if key !in entries then None
    else
      match c.loads(entries[key])
      case Some(Object(fields)) => DeserializeState(fields)
      case _ => None
  }

  lemma {:induction false} ColonInside(a: string, x: string, b: string, y: string)
    requires a + ":" + x == b + ":" + y && |a| < |b|
    ensures ':' in x
  {
    var s := a + ":" + x;
    assert s[|b|] == ':' && s[|b|] == x[|b| - |a| - 1];
  }

  lemma {:induction false} SplitAtColon(a: string, x: string, b: string, y: string)
    requires a + ":" + x == b + ":" + y && ':' !in x && ':' !in y
    ensures a == b && x == y
  {
    if |a| < |b| {
      ColonInside(a, x, b, y);
    } else if |b| < |a| {
      ColonInside(b, y, a, x);
    } else {
      var s := a + ":" + x;
      assert s[..|a|] == a && s[..|b|] == b && s[|a| + 1..] == x && s[|b| + 1..] == y;
    }
  }

  /** A key names one user and one pair of versions, whatever the user id contains. */
  lemma {:induction false} CacheKeyIsInjective(u: string, p: int, v: int, u': string, p': int, v': int)
    requires CacheKey(u, p, v) == CacheKey(u', p', v')
    ensures u == u' && p == p' && v == v'
  {
    hide IntText;
    IntTextHasNoColon(p);
    IntTextHasNoColon(v);
    IntTextHasNoColon(p');
    IntTextHasNoColon(v');
    SplitAtColon("auth:state:" + u + ":" + IntText(p), IntText(v), "auth:state:" + u' + ":" + IntText(p'), IntText(v'));
    SplitAtColon("auth:state:" + u, IntText(p), "auth:state:" + u', IntText(p'));
    assert ("auth:state:" + u)[11..] == u && ("auth:state:" + u')[11..] == u';
    IntTextIsInjective(p, p');
    IntTextIsInjective(v, v');
  }

  /**
   What is put into the cache comes back, every field of it, for the same user and versions; what any other user
   or version finds there is untouched.
   */
  lemma {:induction false} CacheRoundTrip(c: Codec, entries: map<string, string>, s: AuthState,
                                          u: string, p: int, v: int, u': string, p': int, v': int)
    requires Lossless(c) && ENTITLEMENTS_FIELD !in s.fields
    ensures var after := SetCached(c, entries, CacheKey(u, p, v), s);
      GetCached(c, after, CacheKey(u', p', v')) ==
        if u' == u && p' == p && v' == v then Some(s) else GetCached(c, entries, CacheKey(u', p', v'))
  {
    hide CacheKey, Serialize, Deserialize;
    if CacheKey(u', p', v') == CacheKey(u, p, v) {
      CacheKeyIsInjective(u', p', v', u, p, v);
      EntitlementsRoundTrip(s.entitlements);
      assert SerializeState(s) - {ENTITLEMENTS_FIELD} == s.fields;
      assert c.loads(c.dumps(Object(SerializeState(s)))) == Some(Object(SerializeState(s)));
    }
  }
}
