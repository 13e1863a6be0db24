/** The executor settings derived from the driver's Env and EnvFrom. */
module ExecutorEnv {
  import opened Common
  import opened Text

  datatype Kind = Secret | ConfigMap

  datatype KeyRef = KeyRef(source: string, key: string)

  /** `secretKeyRef` and `configMapKeyRef` of a `valueFrom`; other sources have neither. */
  datatype ValueFrom = ValueFrom(secretKeyRef: Option<KeyRef>, configMapKeyRef: Option<KeyRef>)

  datatype EnvVar = EnvVar(name: string, valueFrom: Option<ValueFrom>)

  datatype BulkRef = BulkRef(name: string, optional: Option<bool>)

  datatype EnvFrom = EnvFrom(prefix: string, secretRef: Option<BulkRef>, configMapRef: Option<BulkRef>)

  /** The Secrets and ConfigMaps of the namespace, each with the keys of its data. */
  datatype Objects = Objects(secrets: map<string, set<string>>, configMaps: map<string, set<string>>)
  {
    function Of(kind: Kind): map<string, set<string>> {
      if kind == Secret then secrets else configMaps
    }
  }

  /** The settings, or the object whose absence the driver has to wait for. */
  datatype Derived = Confs(confs: map<string, string>) | Missing(kind: Kind, name: string)

  /** One variable the driver takes from a key of an object. */
  datatype Supply = Supply(kind: Kind, variable: string, source: string, key: string)

  function ConfPrefix(kind: Kind): string {
    if kind == Secret then "spark.kubernetes.executor.secretKeyRef."
    else "spark.kubernetes.executor.configMapKeyRef."
  }

  function ConfKey(s: Supply): string {
    ConfPrefix(s.kind) + s.variable
  }

  function ConfValue(s: Supply): string {
    s.source + ":" + s.key
  }

  /** The setting names the kind and the variable. */
  lemma ConfKeyInjective(s: Supply, t: Supply)
    requires ConfKey(s) == ConfKey(t)
    ensures s.kind == t.kind && s.variable == t.variable
  {
    assert ConfPrefix(Secret)[26] == 's' && ConfPrefix(ConfigMap)[26] == 'c';
    assert ConfKey(s)[26] == ConfPrefix(s.kind)[26] && ConfKey(t)[26] == ConfPrefix(t.kind)[26];
    assert ConfKey(s)[|ConfPrefix(s.kind)|..] == s.variable;
    assert ConfKey(t)[|ConfPrefix(t.kind)|..] == t.variable;
  }

  /** The setting's value names the object and the key, since object names have no colon. */
  lemma ConfValueInjective(s: Supply, t: Supply)
    requires ConfValue(s) == ConfValue(t) && ':' !in s.source && ':' !in t.source
    ensures s.source == t.source && s.key == t.key
  {
    var v := ConfValue(s);
    assert v[|s.source|] == ':' && v[|t.source|] == ':';
    assert forall i | 0 <= i < |s.source| :: v[i] in s.source;
    assert forall i | 0 <= i < |t.source| :: v[i] in t.source;
    assert s.source == v[..|s.source|] && t.source == v[..|t.source|];
    assert s.key == v[|s.source| + 1..] && t.key == v[|t.source| + 1..];
  }

  // ---- what is supplied ----

  function OfEnv(e: EnvVar): set<Supply> {
    if e.valueFrom.None? then {}
    else
      match e.valueFrom.value
      case ValueFrom(Some(ref), _) => {Supply(Secret, e.name, ref.source, ref.key)}
      case ValueFrom(None, Some(ref)) => {Supply(ConfigMap, e.name, ref.source, ref.key)}
      case ValueFrom(None, None) => {}
  }

  /** The object an EnvFrom item names; a Secret hides a ConfigMap. */
  function BulkOf(ef: EnvFrom): Option<(Kind, BulkRef)> {
    if ef.secretRef.Some? then Some((Secret, ef.secretRef.value))
    else if ef.configMapRef.Some? then Some((ConfigMap, ef.configMapRef.value))
    else None
  }

  predicate Present(ef: EnvFrom, objects: Objects) {
    var bulk := BulkOf(ef);
    bulk.Some? && bulk.value.1.name in objects.Of(bulk.value.0)
  }

  /** The item names an object that does not exist and is not optional. */
  predicate Absent(ef: EnvFrom, objects: Objects) {
    var bulk := BulkOf(ef);
    bulk.Some? && bulk.value.1.name !in objects.Of(bulk.value.0) && bulk.value.1.optional != Some(true)
  }

  function Keys(ef: EnvFrom, objects: Objects): set<string>
    requires Present(ef, objects)
  {
    objects.Of(BulkOf(ef).value.0)[BulkOf(ef).value.1.name]
  }

  function BulkSupply(ef: EnvFrom, k: string): Supply
    requires BulkOf(ef).Some?
  {
    Supply(BulkOf(ef).value.0, ef.prefix + k, BulkOf(ef).value.1.name, k)
  }

  function OfBulk(ef: EnvFrom, objects: Objects): set<Supply> {
    if Present(ef, objects) then set k | k in Keys(ef, objects) :: BulkSupply(ef, k) else {}
  }

  function EnvSupplies(env: seq<EnvVar>): set<Supply> {
    if env == [] then {} else EnvSupplies(env[..|env| - 1]) + OfEnv(env[|env| - 1])
  }

  function BulkSupplies(envFrom: seq<EnvFrom>, objects: Objects): set<Supply> {
    if envFrom == [] then {}
    else BulkSupplies(envFrom[..|envFrom| - 1], objects) + OfBulk(envFrom[|envFrom| - 1], objects)
  }

  // ---- what is derived ----

  function ConfOfEnv(e: EnvVar): map<string, string> {
    if e.valueFrom.None? then map[]
    else
      match e.valueFrom.value
      case ValueFrom(Some(ref), _) => map[ConfPrefix(Secret) + e.name := ref.source + ":" + ref.key]
      case ValueFrom(None, Some(ref)) => map[ConfPrefix(ConfigMap) + e.name := ref.source + ":" + ref.key]
      case ValueFrom(None, None) => map[]
  }

  lemma Cancel(p: string)
    ensures forall k: string, l: string | p + k == p + l :: k == l
  {
    forall k: string, l: string | p + k == p + l ensures k == l {
      assert (p + k)[|p|..] == k && (p + l)[|p|..] == l;
    }
  }

  /** One setting per key of an object: the prefix and the key, set to the object and the key. */
  function ConfOfKeys(prefix: string, name: string, keys: set<string>): map<string, string> {
    Cancel(prefix);
    map k | k in keys :: prefix + k := name + ":" + k
  }

  lemma OneMoreKey(prefix: string, name: string, keys: set<string>, k: string)
    ensures ConfOfKeys(prefix, name, keys + {k}) == ConfOfKeys(prefix, name, keys)[prefix + k := name + ":" + k]
  {
    Cancel(prefix);
  }

  function ConfOfBulk(ef: EnvFrom, objects: Objects): map<string, string> {
    if Present(ef, objects) then
      var (kind, ref) := BulkOf(ef).value;
      ConfOfKeys(ConfPrefix(kind) + ef.prefix, ref.name, Keys(ef, objects))
    else map[]
  }

  /** The Env items in order, a later one overwriting an earlier one of the same setting. */
  function EnvConf(env: seq<EnvVar>): map<string, string> {
    if env == [] then map[] else EnvConf(env[..|env| - 1]) + ConfOfEnv(env[|env| - 1])
  }

  /** The EnvFrom items on top, in order. */
  function AllConf(env: seq<EnvVar>, envFrom: seq<EnvFrom>, objects: Objects): map<string, string> {
    if envFrom == [] then EnvConf(env)
    else AllConf(env, envFrom[..|envFrom| - 1], objects) + ConfOfBulk(envFrom[|envFrom| - 1], objects)
  }

  function AllSupplies(env: seq<EnvVar>, envFrom: seq<EnvFrom>, objects: Objects): set<Supply> {
    EnvSupplies(env) + BulkSupplies(envFrom, objects)
  }

  /** Every supply has its setting, naming the same object and key, and there is no other setting. */
  ghost predicate Mirrors(m: map<string, string>, supplies: set<Supply>) {
    && (forall s | s in supplies :: ConfKey(s) in m && m[ConfKey(s)] == ConfValue(s))
    && (forall k | k in m :: exists s :: s in supplies && ConfKey(s) == k)
  }

  /** Every setting is backed by some supply, and every supply has some setting of its name. */
  ghost predicate Backed(m: map<string, string>, supplies: set<Supply>) {
    && (forall s | s in supplies :: ConfKey(s) in m)
    && (forall k | k in m :: exists s :: s in supplies && ConfKey(s) == k && ConfValue(s) == m[k])
  }

  lemma {:induction false} BackedExtends(m: map<string, string>, a: set<Supply>, n: map<string, string>, b: set<Supply>)
    requires Backed(m, a) && Mirrors(n, b)
    ensures Backed(m + n, a + b)
  {
    forall k | k in m + n ensures exists s :: s in a + b && ConfKey(s) == k && ConfValue(s) == (m + n)[k] {
      if k in n {
        var s :| s in b && ConfKey(s) == k;
      } else {
        var s :| s in a && ConfKey(s) == k && ConfValue(s) == m[k];
      }
    }
  }

  lemma {:induction false} EnvConfBacked(env: seq<EnvVar>)
    ensures Backed(EnvConf(env), EnvSupplies(env))
  {
    if env != [] {
      var init, e := env[..|env| - 1], env[|env| - 1];
      EnvConfBacked(init);
      assert Mirrors(ConfOfEnv(e), OfEnv(e));
      BackedExtends(EnvConf(init), EnvSupplies(init), ConfOfEnv(e), OfEnv(e));
    }
  }

  lemma BulkMirrors(ef: EnvFrom, objects: Objects)
    ensures Mirrors(ConfOfBulk(ef, objects), OfBulk(ef, objects))
  {
    if Present(ef, objects) {
      var (kind, ref) := BulkOf(ef).value;
      var prefix := ConfPrefix(kind) + ef.prefix;
      Cancel(prefix);
      var m, supplies := ConfOfBulk(ef, objects), OfBulk(ef, objects);
      assert forall k :: ConfKey(BulkSupply(ef, k)) == prefix + k;
      forall c | c in m ensures exists s :: s in supplies && ConfKey(s) == c {
        var k :| k in Keys(ef, objects) && c == prefix + k;
        assert BulkSupply(ef, k) in supplies;
      }
    }
  }

  lemma {:induction false} AllConfBacked(env: seq<EnvVar>, envFrom: seq<EnvFrom>, objects: Objects)
    ensures Backed(AllConf(env, envFrom, objects), AllSupplies(env, envFrom, objects))
  {
    if envFrom == [] {
      EnvConfBacked(env);
      assert EnvSupplies(env) + {} == EnvSupplies(env);
    } else {
      var init, ef := envFrom[..|envFrom| - 1], envFrom[|envFrom| - 1];
      AllConfBacked(env, init, objects);
      BulkMirrors(ef, objects);
      BackedExtends(AllConf(env, init, objects), AllSupplies(env, init, objects),
                    ConfOfBulk(ef, objects), OfBulk(ef, objects));
      assert AllSupplies(env, init, objects) + OfBulk(ef, objects) == AllSupplies(env, envFrom, objects);
    }
  }

  /** Supplies of one kind and variable agree on the object and key. */
  ghost predicate Consistent(supplies: set<Supply>) {
    forall s, t | s in supplies && t in supplies && s.kind == t.kind && s.variable == t.variable ::
      ConfValue(s) == ConfValue(t)
  }

  /** The settings mirror the driver's references exactly when no variable is supplied twice differently by
      objects of one kind: one setting per ref-backed Env item and per key of every present EnvFrom object,
      naming the same object and key. */
  lemma MirrorsExactly(env: seq<EnvVar>, envFrom: seq<EnvFrom>, objects: Objects)
    ensures Mirrors(AllConf(env, envFrom, objects), AllSupplies(env, envFrom, objects))
            <==> Consistent(AllSupplies(env, envFrom, objects))
  {
    var m, supplies := AllConf(env, envFrom, objects), AllSupplies(env, envFrom, objects);
    AllConfBacked(env, envFrom, objects);
    if Consistent(supplies) {
      forall s | s in supplies ensures m[ConfKey(s)] == ConfValue(s) {
        var t :| t in supplies && ConfKey(t) == ConfKey(s) && ConfValue(t) == m[ConfKey(s)];
        ConfKeyInjective(s, t);
      }
    }
    if Mirrors(m, supplies) {
      forall s, t | s in supplies && t in supplies && s.kind == t.kind && s.variable == t.variable
        ensures ConfValue(s) == ConfValue(t)
      {
        assert ConfKey(s) == ConfKey(t);
      }
    }
  }

  // ---- what the driver's container takes ----

  /** Where the value of a variable comes from: a key of an object, written as in a setting, or elsewhere. */
  datatype Source = FromKey(kind: Kind, key: string) | Elsewhere

  function SourceOf(e: EnvVar): Source {
    if e.valueFrom.None? then Elsewhere
    else
      match e.valueFrom.value
      case ValueFrom(Some(ref), _) => FromKey(Secret, ref.source + ":" + ref.key)
      case ValueFrom(None, Some(ref)) => FromKey(ConfigMap, ref.source + ":" + ref.key)
      case ValueFrom(None, None) => Elsewhere
  }

  /** The last Env item of a name decides. */
  function EnvSource(env: seq<EnvVar>, v: string): Option<Source> {
    if env == [] then None
    else if env[|env| - 1].name == v then Some(SourceOf(env[|env| - 1]))
    else EnvSource(env[..|env| - 1], v)
  }

  predicate Holds(ef: EnvFrom, objects: Objects, v: string) {
    Present(ef, objects) && ef.prefix <= v && v[|ef.prefix|..] in Keys(ef, objects)
  }

  function BulkKey(ef: EnvFrom, v: string): Source
    requires BulkOf(ef).Some? && ef.prefix <= v
  {
    FromKey(BulkOf(ef).value.0, BulkOf(ef).value.1.name + ":" + v[|ef.prefix|..])
  }

  /** The last EnvFrom object that holds the name decides. */
  function BulkSource(envFrom: seq<EnvFrom>, objects: Objects, v: string): Option<Source> {
    if envFrom == [] then None
    else
      var ef := envFrom[|envFrom| - 1];
      if Holds(ef, objects, v) then Some(BulkKey(ef, v)) else BulkSource(envFrom[..|envFrom| - 1], objects, v)
  }

  /** A container prefers Env items to EnvFrom objects. */
  function Taken(env: seq<EnvVar>, envFrom: seq<EnvFrom>, objects: Objects, v: string): Option<Source> {
    if EnvSource(env, v).Some? then EnvSource(env, v) else BulkSource(envFrom, objects, v)
  }

  // ---- what the executors are told ----

  function Setting(m: map<string, string>, kind: Kind, v: string): Option<string> {
    if ConfPrefix(kind) + v in m then Some(m[ConfPrefix(kind) + v]) else None
  }

  /** The source as a setting of one kind. */
  function AsSetting(source: Option<Source>, kind: Kind): Option<string> {
    if source.Some? && source.value.FromKey? && source.value.kind == kind then Some(source.value.key) else None
  }

  function EnvSetting(env: seq<EnvVar>, kind: Kind, v: string): Option<string> {
    if env == [] then None
    else
      var e := env[|env| - 1];
      if e.name == v && AsSetting(Some(SourceOf(e)), kind).Some? then AsSetting(Some(SourceOf(e)), kind)
      else EnvSetting(env[..|env| - 1], kind, v)
  }

  function BulkSetting(envFrom: seq<EnvFrom>, objects: Objects, kind: Kind, v: string): Option<string> {
    if envFrom == [] then None
    else
      var ef := envFrom[|envFrom| - 1];
      if Holds(ef, objects, v) && BulkOf(ef).value.0 == kind then Some(BulkKey(ef, v).key)
      else BulkSetting(envFrom[..|envFrom| - 1], objects, kind, v)
  }

  lemma SettingNames(kind: Kind, v: string, kind': Kind, v': string)
    requires ConfPrefix(kind) + v == ConfPrefix(kind') + v'
    ensures kind == kind' && v == v'
  {
    ConfKeyInjective(Supply(kind, v, "", ""), Supply(kind', v', "", ""));
  }

  lemma PrefixesDiffer(kind: Kind, kind': Kind)
    ensures ConfPrefix(kind) == ConfPrefix(kind') <==> kind == kind'
  {
    assert ConfPrefix(kind) == ConfPrefix(kind') ==> ConfPrefix(kind) + "" == ConfPrefix(kind') + "";
    if ConfPrefix(kind) == ConfPrefix(kind') {
      SettingNames(kind, "", kind', "");
    }
  }

  lemma ConfOfEnvAt(e: EnvVar, kind: Kind, v: string)
    ensures Setting(ConfOfEnv(e), kind, v) == if e.name == v then AsSetting(Some(SourceOf(e)), kind) else None
  {
    forall kind' | ConfPrefix(kind) + v == ConfPrefix(kind') + e.name ensures kind == kind' && v == e.name {
      SettingNames(kind, v, kind', e.name);
    }
  }

  lemma {:induction false} EnvConfAt(env: seq<EnvVar>, kind: Kind, v: string)
    ensures Setting(EnvConf(env), kind, v) == EnvSetting(env, kind, v)
  {
    if env != [] {
      EnvConfAt(env[..|env| - 1], kind, v);
      ConfOfEnvAt(env[|env| - 1], kind, v);
    }
  }

  lemma ConfOfKeysAt(prefix: string, name: string, keys: set<string>, c: string)
    ensures c in ConfOfKeys(prefix, name, keys) <==> prefix <= c && c[|prefix|..] in keys
    ensures c in ConfOfKeys(prefix, name, keys) ==>
              ConfOfKeys(prefix, name, keys)[c] == name + ":" + c[|prefix|..]
  {
    Cancel(prefix);
    if prefix <= c {
      assert c == prefix + c[|prefix|..];
    }
  }

  /** Of two texts that begin with names from a prefix-free list. */
  lemma UnderPrefix(a: string, v: string, b: string, prefix: string, c: string, p: string)
    requires c == a + v && p == b + prefix
    requires forall y: string | a + v == b + y :: a == b && v == y
    ensures p <= c <==> a == b && prefix <= v
    ensures p <= c ==> c[|p|..] == v[|prefix|..]
  {
    if p <= c {
      assert c == b + (prefix + c[|p|..]);
    }
    if a == b && prefix <= v {
      assert c == p + v[|prefix|..];
    }
  }

  lemma ConfOfBulkAt(ef: EnvFrom, objects: Objects, kind: Kind, v: string)
    ensures Setting(ConfOfBulk(ef, objects), kind, v) ==
            if Holds(ef, objects, v) && BulkOf(ef).value.0 == kind then Some(BulkKey(ef, v).key) else None
  {
    if Present(ef, objects) {
      var (kind', ref) := BulkOf(ef).value;
      var c, p := ConfPrefix(kind) + v, ConfPrefix(kind') + ef.prefix;
      ConfOfKeysAt(p, ref.name, Keys(ef, objects), c);
      forall y: string | ConfPrefix(kind) + v == ConfPrefix(kind') + y ensures kind == kind' && v == y {
        SettingNames(kind, v, kind', y);
      }
      PrefixesDiffer(kind, kind');
      UnderPrefix(ConfPrefix(kind), v, ConfPrefix(kind'), ef.prefix, c, p);
    }
  }

  lemma {:induction false} AllConfAt(env: seq<EnvVar>, envFrom: seq<EnvFrom>, objects: Objects, kind: Kind, v: string)
    ensures Setting(AllConf(env, envFrom, objects), kind, v) ==
            if BulkSetting(envFrom, objects, kind, v).Some? then BulkSetting(envFrom, objects, kind, v)
            else EnvSetting(env, kind, v)
  {
    if envFrom == [] {
      EnvConfAt(env, kind, v);
    } else {
      AllConfAt(env, envFrom[..|envFrom| - 1], objects, kind, v);
      ConfOfBulkAt(envFrom[|envFrom| - 1], objects, kind, v);
    }
  }

  lemma {:induction false} OwnAreElsewhere(own: seq<EnvVar>, v: string)
    requires forall e | e in own :: SourceOf(e) == Elsewhere
    ensures EnvSource(own, v).Some? ==> EnvSource(own, v).value == Elsewhere
  {
    if own != [] {
      assert own[|own| - 1] in own;
      OwnAreElsewhere(own[..|own| - 1], v);
    }
  }

  /** The Env items: when the last one refers to a key, that is also the last setting. */
  lemma {:induction false} EnvSourceSetting(own: seq<EnvVar>, env: seq<EnvVar>, v: string)
    requires forall e | e in own :: SourceOf(e) == Elsewhere
    ensures var r := EnvSource(own + env, v);
            && (r.None? ==> forall kind :: EnvSetting(env, kind, v) == None)
            && (r.Some? && r.value.FromKey? ==> EnvSetting(env, r.value.kind, v) == Some(r.value.key))
  {
    if env == [] {
      assert own + env == own;
      OwnAreElsewhere(own, v);
    } else {
      EnvSourceSetting(own, env[..|env| - 1], v);
      assert (own + env)[..|own + env| - 1] == own + env[..|env| - 1];
    }
  }

  lemma {:induction false} BulkSourceSetting(envFrom: seq<EnvFrom>, objects: Objects, v: string)
    ensures var r := BulkSource(envFrom, objects, v);
            && (r.None? ==> forall kind :: BulkSetting(envFrom, objects, kind, v) == None)
            && (r.Some? ==> r.value.FromKey?
                            && BulkSetting(envFrom, objects, r.value.kind, v) == Some(r.value.key))
  {
    if envFrom != [] {
      BulkSourceSetting(envFrom[..|envFrom| - 1], objects, v);
    }
  }

  /** The executors are told of a variable what the driver's container takes: the one key, or nothing. */
  predicate ToldAsTaken(m: map<string, string>, taken: Option<Source>, v: string) {
    Setting(m, Secret, v) == AsSetting(taken, Secret) && Setting(m, ConfigMap, v) == AsSetting(taken, ConfigMap)
  }

  /** Some object of the kind supplies the variable. */
  ghost predicate Supplied(supplies: set<Supply>, kind: Kind, v: string) {
    exists s :: s in supplies && s.kind == kind && s.variable == v
  }

  lemma SettingIffSupplied(env: seq<EnvVar>, envFrom: seq<EnvFrom>, objects: Objects, kind: Kind, v: string)
    ensures Setting(AllConf(env, envFrom, objects), kind, v).Some?
            <==> Supplied(AllSupplies(env, envFrom, objects), kind, v)
  {
    var m, supplies := AllConf(env, envFrom, objects), AllSupplies(env, envFrom, objects);
    AllConfBacked(env, envFrom, objects);
    if ConfPrefix(kind) + v in m {
      var s :| s in supplies && ConfKey(s) == ConfPrefix(kind) + v;
      SettingNames(kind, v, s.kind, s.variable);
    }
    if s :| s in supplies && s.kind == kind && s.variable == v {
      assert ConfKey(s) in m;
    }
  }

  /** Objects of one kind only supply the variable; none does where the container takes it from elsewhere; and
      where an Env item and an EnvFrom object both supply it, the last ones of each name the same key. */
  ghost predicate Unambiguous(own: seq<EnvVar>, env: seq<EnvVar>, envFrom: seq<EnvFrom>, objects: Objects, v: string) {
    var supplies, item := AllSupplies(env, envFrom, objects), EnvSource(own + env, v);
    && !(Supplied(supplies, Secret, v) && Supplied(supplies, ConfigMap, v))
    && (item == Some(Elsewhere) ==> !Supplied(supplies, Secret, v) && !Supplied(supplies, ConfigMap, v))
    && (item.Some? && item.value.FromKey? && BulkSource(envFrom, objects, v).Some? ==>
          BulkSource(envFrom, objects, v) == item)
  }

  /** The executors get the driver's environment exactly when no variable is ambiguous in that way. The
      container's Env starts with the controller's `own` items, which refer to no object. */
  lemma ToldAsTakenExactly(own: seq<EnvVar>, env: seq<EnvVar>, envFrom: seq<EnvFrom>, objects: Objects, v: string)
    requires forall e | e in own :: SourceOf(e) == Elsewhere
    ensures ToldAsTaken(AllConf(env, envFrom, objects), Taken(own + env, envFrom, objects, v), v)
            <==> Unambiguous(own, env, envFrom, objects, v)
  {
    SettingIffSupplied(env, envFrom, objects, Secret, v);
    SettingIffSupplied(env, envFrom, objects, ConfigMap, v);
    AllConfAt(env, envFrom, objects, Secret, v);
    AllConfAt(env, envFrom, objects, ConfigMap, v);
    EnvSourceSetting(own, env, v);
    BulkSourceSetting(envFrom, objects, v);
    ToldCases(EnvSource(own + env, v), BulkSource(envFrom, objects, v),
              EnvSetting(env, Secret, v), EnvSetting(env, ConfigMap, v),
              BulkSetting(envFrom, objects, Secret, v), BulkSetting(envFrom, objects, ConfigMap, v));
  }

  /** The comparison, case by case, from the deciding item and object and the last setting of each kind. */
  lemma ToldCases(item: Option<Source>, bulk: Option<Source>, envSecret: Option<string>, envMap: Option<string>,
                  bulkSecret: Option<string>, bulkMap: Option<string>)
    requires item.None? ==> envSecret == envMap == None
    requires item.Some? && item.value.FromKey? ==>
               (if item.value.kind == Secret then envSecret else envMap) == Some(item.value.key)
    requires bulk.None? ==> bulkSecret == bulkMap == None
    requires bulk.Some? ==> bulk.value.FromKey?
                            && (if bulk.value.kind == Secret then bulkSecret else bulkMap) == Some(bulk.value.key)
    ensures var secret, configMap :=
              if bulkSecret.Some? then bulkSecret else envSecret, if bulkMap.Some? then bulkMap else envMap;
            var taken := if item.Some? then item else bulk;
            secret == AsSetting(taken, Secret) && configMap == AsSetting(taken, ConfigMap) <==>
              && !(secret.Some? && configMap.Some?)
              && (item == Some(Elsewhere) ==> secret.None? && configMap.None?)
              && (item.Some? && item.value.FromKey? && bulk.Some? ==> bulk == item)
  {
  }

  // ---- the outcome ----

  /** The object an item waits for. */
  function MissingOf(ef: EnvFrom): Derived
    requires BulkOf(ef).Some?
  {
    Missing(BulkOf(ef).value.0, BulkOf(ef).value.1.name)
  }

  /** What is derived from the items from the `i`-th on, given the settings of those before it. */
  function Outcome(env: seq<EnvVar>, envFrom: seq<EnvFrom>, objects: Objects, i: nat): Derived
    requires i <= |envFrom|
    decreases |envFrom| - i
  {
    if i == |envFrom| then Confs(AllConf(env, envFrom, objects))
    else if Absent(envFrom[i], objects) then MissingOf(envFrom[i])
    else Outcome(env, envFrom, objects, i + 1)
  }

  /** Settings come out exactly when every required object exists; otherwise the outcome is the missing
      object of the first item in list order that has one. */
  lemma {:induction false} OutcomeMeaning(env: seq<EnvVar>, envFrom: seq<EnvFrom>, objects: Objects, i: nat)
    requires i <= |envFrom|
    ensures var r := Outcome(env, envFrom, objects, i);
            && (r.Confs? <==> forall j | i <= j < |envFrom| :: !Absent(envFrom[j], objects))
            && (r.Confs? ==> r.confs == AllConf(env, envFrom, objects))
            && (forall k | i <= k < |envFrom| && Absent(envFrom[k], objects)
                           && (forall j | i <= j < k :: !Absent(envFrom[j], objects)) ::
                  r == MissingOf(envFrom[k]))
    decreases |envFrom| - i
  {
    if i < |envFrom| {
      OutcomeMeaning(env, envFrom, objects, i + 1);
      var r := Outcome(env, envFrom, objects, i);
      if Absent(envFrom[i], objects) {
        assert r == MissingOf(envFrom[i]);
      } else {
        assert r == Outcome(env, envFrom, objects, i + 1);
      }
    }
  }

  /** A variable supplied by an Env item and again by an EnvFrom object: the executors get the object's
      key, although a container prefers the Env item. */
  lemma {:induction false} BulkSourceOverridesEnvItem(v: string, a: string, k: string, b: string)
    requires b != a && ':' !in a && ':' !in b
    ensures var env := [EnvVar(v, Some(ValueFrom(Some(KeyRef(a, k)), None)))];
            var envFrom := [EnvFrom("", Some(BulkRef(b, None)), None)];
            var objects := Objects(map[b := {v}], map[]);
            var m := AllConf(env, envFrom, objects);
            && ConfPrefix(Secret) + v in m && m[ConfPrefix(Secret) + v] == b + ":" + v
            && !Mirrors(m, AllSupplies(env, envFrom, objects))
  {
    var env := [EnvVar(v, Some(ValueFrom(Some(KeyRef(a, k)), None)))];
    var envFrom := [EnvFrom("", Some(BulkRef(b, None)), None)];
    var objects := Objects(map[b := {v}], map[]);
    var s, t := Supply(Secret, v, a, k), Supply(Secret, v, b, v);
    assert env[..0] == [] && envFrom[..0] == [] && "" + v == v;
    assert s in OfEnv(env[0]) && s in AllSupplies(env, envFrom, objects);
    assert BulkSupply(envFrom[0], v) == t && t in OfBulk(envFrom[0], objects);
    assert AllConf(env, [], objects) == EnvConf(env);
    BulkMirrors(envFrom[0], objects);
    assert ConfKey(t) in ConfOfBulk(envFrom[0], objects);
    if ConfValue(s) == ConfValue(t) {
      ConfValueInjective(s, t);
    }
    MirrorsExactly(env, envFrom, objects);
  }

  // ---- told by the items themselves ----

  /** The item takes a key of the object; a Secret reference hides a ConfigMap one. */
  predicate RefersTo(e: EnvVar, s: Supply) {
    && e.name == s.variable && e.valueFrom.Some?
    && (match s.kind
        case Secret => e.valueFrom.value.secretKeyRef == Some(KeyRef(s.source, s.key))
        case ConfigMap =>
          e.valueFrom.value.secretKeyRef == None && e.valueFrom.value.configMapKeyRef == Some(KeyRef(s.source, s.key)))
  }

  /** The object is there and has the key; a Secret hides a ConfigMap. */
  predicate Provides(ef: EnvFrom, objects: Objects, s: Supply) {
    && s.variable == ef.prefix + s.key
    && (match s.kind
        case Secret =>
          && ef.secretRef.Some? && ef.secretRef.value.name == s.source
          && s.source in objects.secrets && s.key in objects.secrets[s.source]
        case ConfigMap =>
          && ef.secretRef.None? && ef.configMapRef.Some? && ef.configMapRef.value.name == s.source
          && s.source in objects.configMaps && s.key in objects.configMaps[s.source])
  }

  ghost predicate Sourced(env: seq<EnvVar>, envFrom: seq<EnvFrom>, objects: Objects, s: Supply) {
    (exists e :: e in env && RefersTo(e, s)) || (exists ef :: ef in envFrom && Provides(ef, objects, s))
  }

  lemma OfEnvMeaning(e: EnvVar, s: Supply)
    ensures s in OfEnv(e) <==> RefersTo(e, s)
  {
  }

  lemma OfBulkMeaning(ef: EnvFrom, objects: Objects, s: Supply)
    ensures s in OfBulk(ef, objects) <==> Provides(ef, objects, s)
  {
    if Provides(ef, objects, s) {
      assert s == BulkSupply(ef, s.key) && s.key in Keys(ef, objects);
    }
  }

  lemma {:induction false} EnvSuppliesMeaning(env: seq<EnvVar>, s: Supply)
    ensures s in EnvSupplies(env) <==> exists e :: e in env && RefersTo(e, s)
  {
    if env != [] {
      EnvSuppliesMeaning(env[..|env| - 1], s);
      OfEnvMeaning(env[|env| - 1], s);
      assert env == env[..|env| - 1] + [env[|env| - 1]];
    }
  }

  lemma {:induction false} BulkSuppliesMeaning(envFrom: seq<EnvFrom>, objects: Objects, s: Supply)
    ensures s in BulkSupplies(envFrom, objects) <==> exists ef :: ef in envFrom && Provides(ef, objects, s)
  {
    if envFrom != [] {
      BulkSuppliesMeaning(envFrom[..|envFrom| - 1], objects, s);
      OfBulkMeaning(envFrom[|envFrom| - 1], objects, s);
      assert envFrom == envFrom[..|envFrom| - 1] + [envFrom[|envFrom| - 1]];
    }
  }

  /** The setting of a supply, by Spark's names. */
  predicate Spells(c: string, value: string, s: Supply) {
    && c == (match s.kind
             case Secret => "spark.kubernetes.executor.secretKeyRef."
             case ConfigMap => "spark.kubernetes.executor.configMapKeyRef.") + s.variable
    && value == s.source + ":" + s.key
  }

  lemma SpellsMeaning(c: string, value: string, s: Supply)
    ensures Spells(c, value, s) <==> c == ConfKey(s) && value == ConfValue(s)
  {
  }

  lemma SourcedMeaning(env: seq<EnvVar>, envFrom: seq<EnvFrom>, objects: Objects, s: Supply)
    ensures s in AllSupplies(env, envFrom, objects) <==> Sourced(env, envFrom, objects, s)
  {
    EnvSuppliesMeaning(env, s);
    BulkSuppliesMeaning(envFrom, objects, s);
  }

  /** Every setting comes from an item. */
  lemma EverySettingIsSourced(env: seq<EnvVar>, envFrom: seq<EnvFrom>, objects: Objects, m: map<string, string>,
                              c: string)
    requires m == AllConf(env, envFrom, objects) && c in m
    ensures exists s :: Sourced(env, envFrom, objects, s) && Spells(c, m[c], s)
  {
    AllConfBacked(env, envFrom, objects);
    var s :| s in AllSupplies(env, envFrom, objects) && ConfKey(s) == c && ConfValue(s) == m[c];
    SourcedMeaning(env, envFrom, objects, s);
    SpellsMeaning(c, m[c], s);
  }

  /** Every item that refers to a key, or whose object has one, gives its variable a setting. */
  lemma EverySourceIsSet(env: seq<EnvVar>, envFrom: seq<EnvFrom>, objects: Objects, s: Supply, c: string, value: string)
    requires Sourced(env, envFrom, objects, s) && Spells(c, value, s)
    ensures c in AllConf(env, envFrom, objects)
  {
    AllConfBacked(env, envFrom, objects);
    SourcedMeaning(env, envFrom, objects, s);
    SpellsMeaning(c, value, s);
  }

  /** The item cannot do without an object, and that is missing. */
  predicate Needs(ef: EnvFrom, objects: Objects, kind: Kind, name: string) {
    match kind
    case Secret =>
      && ef.secretRef.Some? && ef.secretRef.value.name == name && ef.secretRef.value.optional != Some(true)
      && name !in objects.secrets
    case ConfigMap =>
      && ef.secretRef.None? && ef.configMapRef.Some? && ef.configMapRef.value.name == name
      && ef.configMapRef.value.optional != Some(true) && name !in objects.configMaps
  }

  lemma AbsentMeaning(ef: EnvFrom, objects: Objects)
    ensures Absent(ef, objects) <==> exists kind, name :: Needs(ef, objects, kind, name)
    ensures forall kind, name :: Needs(ef, objects, kind, name) ==> MissingOf(ef) == Missing(kind, name)
  {
    if Absent(ef, objects) {
      assert Needs(ef, objects, BulkOf(ef).value.0, BulkOf(ef).value.1.name);
    }
  }

  /** The first item in list order that cannot do without a missing object decides what is reported; if there is
      none the settings come out. */
  lemma FirstNeedIsReported(env: seq<EnvVar>, envFrom: seq<EnvFrom>, objects: Objects, k: nat, kind: Kind, name: string)
    requires k <= |envFrom| && forall j, c, n | 0 <= j < k :: !Needs(envFrom[j], objects, c, n)
    ensures k == |envFrom| ==> Outcome(env, envFrom, objects, 0) == Confs(AllConf(env, envFrom, objects))
    ensures k < |envFrom| && Needs(envFrom[k], objects, kind, name) ==>
              Outcome(env, envFrom, objects, 0) == Missing(kind, name)
  {
    forall j | 0 <= j < k ensures !Absent(envFrom[j], objects) {
      AbsentMeaning(envFrom[j], objects);
    }
    if k < |envFrom| {
      AbsentMeaning(envFrom[k], objects);
    }
    OutcomeMeaning(env, envFrom, objects, 0);
  }

  predicate OptionalAndMissing(ef: EnvFrom, objects: Objects) {
    || (ef.secretRef.Some? && ef.secretRef.value.optional == Some(true) && ef.secretRef.value.name !in objects.secrets)
    || (ef.secretRef.None? && ef.configMapRef.Some? && ef.configMapRef.value.optional == Some(true)
        && ef.configMapRef.value.name !in objects.configMaps)
  }

  lemma NothingGiven(ef: EnvFrom, objects: Objects)
    requires OptionalAndMissing(ef, objects)
    ensures ConfOfBulk(ef, objects) == map[] && !Absent(ef, objects)
  {
  }

  lemma AllConfOneMore(env: seq<EnvVar>, some: seq<EnvFrom>, last: EnvFrom, all: seq<EnvFrom>, objects: Objects)
    requires all == some + [last]
    ensures AllConf(env, all, objects) == AllConf(env, some, objects) + ConfOfBulk(last, objects)
  {
    assert all[..|all| - 1] == some;
  }

  lemma {:induction false} AllConfWithout(
      env: seq<EnvVar>, before: seq<EnvFrom>, ef: EnvFrom, rest: seq<EnvFrom>, objects: Objects)
    requires OptionalAndMissing(ef, objects)
    ensures AllConf(env, before + [ef] + rest, objects) == AllConf(env, before + rest, objects)
    decreases |rest|
  {
    if rest == [] {
      NothingGiven(ef, objects);
      AllConfOneMore(env, before, ef, before + [ef] + rest, objects);
      assert before + rest == before;
    } else {
      var init, last := rest[..|rest| - 1], rest[|rest| - 1];
      AllConfWithout(env, before, ef, init, objects);
      AllConfOneMore(env, before + [ef] + init, last, before + [ef] + rest, objects);
      AllConfOneMore(env, before + init, last, before + rest, objects);
    }
  }

  lemma {:induction false} OutcomeWithout(
      env: seq<EnvVar>, before: seq<EnvFrom>, ef: EnvFrom, rest: seq<EnvFrom>, objects: Objects, i: nat)
    requires OptionalAndMissing(ef, objects) && i <= |before| + |rest|
    ensures Outcome(env, before + [ef] + rest, objects, if i < |before| then i else i + 1)
            == Outcome(env, before + rest, objects, i)
    ensures i == |before| ==> Outcome(env, before + [ef] + rest, objects, i) == Outcome(env, before + rest, objects, i)
    decreases |before| + |rest| - i
  {
    if i == |before| + |rest| {
      AllConfWithout(env, before, ef, rest, objects);
    } else {
      OutcomeWithout(env, before, ef, rest, objects, i + 1);
    }
  }

  /** An optional object that is missing is passed over, wherever it stands. */
  lemma OptionalIsPassedOver(
      env: seq<EnvVar>, before: seq<EnvFrom>, ef: EnvFrom, rest: seq<EnvFrom>, objects: Objects)
    requires OptionalAndMissing(ef, objects)
    ensures Outcome(env, before + [ef] + rest, objects, 0) == Outcome(env, before + rest, objects, 0)
  {
    OutcomeWithout(env, before, ef, rest, objects, 0);
  }

  // ---- derivedExecutorEnvConf ----

  /** `derivedExecutorEnvConf`. */
  method DerivedExecutorEnvConf(env: seq<EnvVar>, envFrom: seq<EnvFrom>, objects: Objects) returns (r: Derived)
    ensures r == Outcome(env, envFrom, objects, 0)
  {
    var out := FromEnv(env);
    for i := 0 to |envFrom|
      invariant Outcome(env, envFrom, objects, i) == Outcome(env, envFrom, objects, 0)
      invariant out == AllConf(env, envFrom[..i], objects)
    {
      if Absent(envFrom[i], objects) {
        return MissingOf(envFrom[i]);
      }
      out := AddBulk(out, envFrom[i], objects);
      assert envFrom[..i + 1][..i] == envFrom[..i];
    }
    assert envFrom[..|envFrom|] == envFrom;
    return Confs(out);
  }

  /** The loop over the Env items. */
  method FromEnv(env: seq<EnvVar>) returns (out: map<string, string>)
    ensures out == EnvConf(env)
  {
    out := map[];
    for i := 0 to |env|
      invariant out == EnvConf(env[..i])
    {
      out := AddEnv(out, env[i]);
      assert env[..i + 1][..i] == env[..i];
    }
    assert env[..|env|] == env;
  }

  /** One Env item: a Secret reference hides a ConfigMap reference, anything else adds nothing. */
  method AddEnv(base: map<string, string>, e: EnvVar) returns (out: map<string, string>)
    ensures out == base + ConfOfEnv(e)
  {
    out := base;
    if e.valueFrom.Some? {
      match e.valueFrom.value
      case ValueFrom(Some(ref), _) => out := out[ConfPrefix(Secret) + e.name := ref.source + ":" + ref.key];
      case ValueFrom(None, Some(ref)) => out := out[ConfPrefix(ConfigMap) + e.name := ref.source + ":" + ref.key];
      case ValueFrom(None, None) =>
    }
  }

  /** The loop over the keys of one object, in any order. */
  method AddBulk(base: map<string, string>, ef: EnvFrom, objects: Objects) returns (m: map<string, string>)
    ensures m == base + ConfOfBulk(ef, objects)
  {
    m := base;
    if Present(ef, objects) {
      var (kind, ref) := BulkOf(ef).value;
      m := AddKeys(base, ConfPrefix(kind) + ef.prefix, ref.name, Keys(ef, objects));
    }
  }

  method AddKeys(base: map<string, string>, prefix: string, name: string, keys: set<string>)
    returns (m: map<string, string>)
    ensures m == base + ConfOfKeys(prefix, name, keys)
  {
    m := base;
    var order := Enumerate(keys);
    ghost var done: set<string> := {};
    for i := 0 to |order|
      invariant done == Elements(order[..i])
      invariant m == base + ConfOfKeys(prefix, name, done)
    {
      OneMoreKey(prefix, name, done, order[i]);
      UpdateOnTop(base, ConfOfKeys(prefix, name, done), prefix + order[i], name + ":" + order[i]);
      assert Elements(order[..i + 1]) == Elements(order[..i]) + {order[i]};
      m := m[prefix + order[i] := name + ":" + order[i]];
      done := done + {order[i]};
    }
    assert order[..|order|] == order;
  }

  lemma UpdateOnTop(base: map<string, string>, m: map<string, string>, k: string, v: string)
    ensures (base + m)[k := v] == base + m[k := v]
  {
  }
}
