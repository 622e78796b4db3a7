/**
 * Values that cross the server (JSON-like trees) and the redaction applied before they are
 * logged or audited. Models `audit/logging_setup.py`.
 */
module Redaction {
  import opened Text

  /** A Python value, as far as the server inspects it. */
  datatype Value =
    | Null
    | Flag(flag: bool)
    | Number(number: int)
    | Str(text: string)
    | List(items: seq<Value>)
    | Tuple(elements: seq<Value>)
    | Dict(fields: map<string, Value>)

  type Fields = map<string, Value>

  const REDACTED := "***"

  const SENSITIVE_KEY_PARTS: seq<string> :=
    ["token", "secret", "password", "passwd", "authorization", "api_key", "apikey", "credential"]

  /** `key.lower().replace("-", "_")`. */
  function NormalizeKey(key: string): string {
    seq(|key|, i requires 0 <= i < |key| => if key[i] == '-' then '_' else LowerChar(key[i]))
  }

  predicate IsSensitiveKey(key: string) {
    exists i | 0 <= i < |SENSITIVE_KEY_PARTS| :: Contains(NormalizeKey(key), SENSITIVE_KEY_PARTS[i])
  }

  /** `c` can stand for `letter` in a key: itself, its capital, or a dash for an underscore. */
  predicate StandsFor(c: char, letter: char) {
    c == letter || ('a' <= letter <= 'z' && c as int + 32 == letter as int) || (letter == '_' && c == '-')
  }

  predicate Spells(m: string, name: string) {
    |m| == |name| && forall i | 0 <= i < |m| :: StandsFor(m[i], name[i])
  }

  predicate SpelledIn(key: string, before: string, m: string, after: string, name: string) {
    key == before + m + after && Spells(m, name)
  }

  /** Somewhere in the key one of the names is spelled out, capitals and dashes allowed. */
  ghost predicate NamesOneOf(key: string, names: set<string>) {
    exists before, m, after, name :: name in names && SpelledIn(key, before, m, after, name)
  }

  lemma NormalizedContainsExactly(key: string, name: string)
    requires forall c | c in name :: 'a' <= c <= 'z' || c == '_'
    ensures Contains(NormalizeKey(key), name) <==> exists before, m, after :: SpelledIn(key, before, m, after, name)
  {
    var normal := NormalizeKey(key);
    if Contains(normal, name) {
      var i: nat :| i <= |normal| && MatchesAt(normal, name, i);
      var m := key[i..i + |name|];
      forall k | 0 <= k < |m| ensures StandsFor(m[k], name[k]) {
        MatchFixesLetter(normal, name, i, k);
      }
      assert SpelledIn(key, key[..i], m, key[i + |name|..], name);
    }
    if before, m, after :| SpelledIn(key, before, m, after, name) {
      var i := |before|;
      forall k | 0 <= k < |name| ensures normal[i..i + |name|][k] == name[k] {
        assert key[i + k] == m[k] && name[k] in name;
      }
      assert normal[i..i + |name|] == name;
      assert MatchesAt(normal, name, i);
    }
  }

  /** A key that contains a normalised part is one that spells it out; for a whole list of parts. */
  lemma ListedPartsExactly(key: string, parts: seq<string>)
    requires forall i | 0 <= i < |parts| :: forall c | c in parts[i] :: 'a' <= c <= 'z' || c == '_'
    ensures (exists i | 0 <= i < |parts| :: Contains(NormalizeKey(key), parts[i]))
      <==> NamesOneOf(key, set i | 0 <= i < |parts| :: parts[i])
  {
    hide Contains, NormalizeKey, SpelledIn;
    var names := set i | 0 <= i < |parts| :: parts[i];
    if i :| 0 <= i < |parts| && Contains(NormalizeKey(key), parts[i]) {
      NormalizedContainsExactly(key, parts[i]);
      assert parts[i] in names;
    }
    if before, m, after, name :| name in names && SpelledIn(key, before, m, after, name) {
      var i :| 0 <= i < |parts| && parts[i] == name;
      NormalizedContainsExactly(key, name);
    }
  }

  /** The key names a secret. */
  ghost predicate NamesASecret(key: string) {
    NamesOneOf(key, {"token", "secret", "password", "passwd", "authorization", "api_key", "apikey", "credential"})
  }

  /** The sensitive keys are exactly those in which one of the eight names is spelled out. */
  lemma SensitiveExactly(key: string)
    ensures IsSensitiveKey(key) <==> NamesASecret(key)
  {
    hide Contains, NormalizeKey, NamesOneOf;
    PartsAreLowerCase();
    ListedPartsExactly(key, SENSITIVE_KEY_PARTS);
    PartsAreTheNames();
  }

  lemma PartsAreLowerCase()
    ensures forall i | 0 <= i < |SENSITIVE_KEY_PARTS| ::
              forall c | c in SENSITIVE_KEY_PARTS[i] :: 'a' <= c <= 'z' || c == '_'
  {
  }

  lemma PartsAreTheNames()
    ensures (set i | 0 <= i < |SENSITIVE_KEY_PARTS| :: SENSITIVE_KEY_PARTS[i])
         == {"token", "secret", "password", "passwd", "authorization", "api_key", "apikey", "credential"}
  {
    var p := SENSITIVE_KEY_PARTS;
    var names := set i | 0 <= i < |p| :: p[i];
    assert p[0] in names && p[1] in names && p[2] in names && p[3] in names;
    assert p[4] in names && p[5] in names && p[6] in names && p[7] in names;
  }

  /** The two characters differ at most in case, or as dash and underscore. */
  predicate Alike(c: char, d: char) {
    || c == d
    || ('a' <= c <= 'z' && c as int == d as int + 32) || ('a' <= d <= 'z' && d as int == c as int + 32)
    || (c in "-_" && d in "-_")
  }

  /** Keys that are alike character by character are equally sensitive. */
  lemma SpellingDoesNotMatter(a: string, b: string)
    requires |a| == |b| && forall i | 0 <= i < |a| :: Alike(a[i], b[i])
    ensures IsSensitiveKey(a) <==> IsSensitiveKey(b)
  {
    assert NormalizeKey(a) == NormalizeKey(b);
  }

  /** Nothing written around a sensitive key makes it harmless. */
  lemma SurroundingsDoNotHide(before: string, key: string, after: string)
    requires IsSensitiveKey(key)
    ensures IsSensitiveKey(before + key + after)
  {
    var names := {"token", "secret", "password", "passwd", "authorization", "api_key", "apikey", "credential"};
    SensitiveExactly(key);
    SensitiveExactly(before + key + after);
    var b, m, a, name :| name in names && SpelledIn(key, b, m, a, name);
    assert before + (b + m + a) + after == (before + b) + m + (a + after);
    assert SpelledIn(before + key + after, before + b, m, a + after, name);
  }

  function Redact(v: Value): Value {
    match v
    case Dict(fields) => Dict(map k | k in fields :: if IsSensitiveKey(k) then Str(REDACTED) else Redact(fields[k]))
    case List(items) => List(seq(|items|, i requires 0 <= i < |items| => Redact(items[i])))
    case Tuple(elements) => List(seq(|elements|, i requires 0 <= i < |elements| => Redact(elements[i])))
    case _ => v
  }

  /** `sanitize_audit_payload` on a mapping. */
  function RedactFields(fields: Fields): Fields {
    Redact(Dict(fields)).fields
  }

  /** The items of a list or a tuple. */
  function Items(v: Value): (r: seq<Value>)
    requires v.List? || v.Tuple?
    ensures forall i | 0 <= i < |r| :: r[i] < v
  {
    if v.List? then v.items else v.elements
  }

  /**
   * Two trees that agree on everything but what hangs beneath sensitive keys, at any depth,
   * a tuple counting as the list it is logged as.
   */
  ghost predicate AgreeOutsideSecrets(a: Value, b: Value) {
    if a.Dict? && b.Dict? then
      a.fields.Keys == b.fields.Keys
      && forall k | k in a.fields :: IsSensitiveKey(k) || AgreeOutsideSecrets(a.fields[k], b.fields[k])
    else if (a.List? || a.Tuple?) && (b.List? || b.Tuple?) then
      |Items(a)| == |Items(b)| && forall i | 0 <= i < |Items(a)| :: AgreeOutsideSecrets(Items(a)[i], Items(b)[i])
    else
      a == b
  }

  /**
   * In every mapping exactly the values under keys that spell out a secret's name are blanked,
   * however they are spelled and whatever surrounds the name.
   */
  lemma RedactBlanksEverySpelling(fields: Fields, key: string)
    requires key in fields
    ensures Redact(Dict(fields)).Dict? && key in Redact(Dict(fields)).fields
    ensures NamesASecret(key) ==> Redact(Dict(fields)).fields[key] == Str("***")
    ensures !NamesASecret(key) ==> Redact(Dict(fields)).fields[key] == Redact(fields[key])
  {
    hide IsSensitiveKey, NamesASecret;
    SensitiveExactly(key);
  }

  lemma RedactItems(v: Value)
    requires v.List? || v.Tuple?
    ensures Redact(v).List? && |Redact(v).items| == |Items(v)|
    ensures forall i | 0 <= i < |Items(v)| :: Redact(v).items[i] == Redact(Items(v)[i])
  {
  }

  /** Noninterference: nothing beneath a sensitive key reaches the redacted tree. */
  lemma {:induction false} RedactHidesSecrets(a: Value, b: Value)
    requires AgreeOutsideSecrets(a, b)
    ensures Redact(a) == Redact(b)
  {
    if a.Dict? && b.Dict? {
      forall k | k in a.fields && !IsSensitiveKey(k) ensures Redact(a.fields[k]) == Redact(b.fields[k]) {
        RedactHidesSecrets(a.fields[k], b.fields[k]);
      }
      assert Redact(a).fields == Redact(b).fields;
    } else if (a.List? || a.Tuple?) && (b.List? || b.Tuple?) {
      RedactItems(a);
      RedactItems(b);
      forall i | 0 <= i < |Items(a)| ensures Redact(a).items[i] == Redact(b).items[i] {
        RedactHidesSecrets(Items(a)[i], Items(b)[i]);
      }
      assert Redact(a).items == Redact(b).items;
    }
  }

  /** Redaction loses nothing else: trees it identifies agree outside secrets. */
  lemma {:induction false} RedactKeepsTheRest(a: Value, b: Value)
    requires Redact(a) == Redact(b)
    ensures AgreeOutsideSecrets(a, b)
  {
    if a.Dict? && b.Dict? {
      assert Redact(a).fields.Keys == a.fields.Keys && Redact(b).fields.Keys == b.fields.Keys;
      forall k | k in a.fields && !IsSensitiveKey(k) ensures AgreeOutsideSecrets(a.fields[k], b.fields[k]) {
        assert Redact(a).fields[k] == Redact(b).fields[k];
        RedactKeepsTheRest(a.fields[k], b.fields[k]);
      }
    } else if (a.List? || a.Tuple?) && (b.List? || b.Tuple?) {
      RedactItems(a);
      RedactItems(b);
      forall i | 0 <= i < |Items(a)| ensures AgreeOutsideSecrets(Items(a)[i], Items(b)[i]) {
        assert Redact(a).items[i] == Redact(b).items[i];
        RedactKeepsTheRest(Items(a)[i], Items(b)[i]);
      }
    }
  }

  /** Sanitising in the gate and again in the recorder is the same as sanitising once. */
  lemma {:induction false} RedactIdempotent(v: Value)
    ensures Redact(Redact(v)) == Redact(v)
  {
    match v
    case Dict(fields) =>
      forall k | k in fields ensures Redact(Redact(fields[k])) == Redact(fields[k]) {
        RedactIdempotent(fields[k]);
      }
      assert Redact(Redact(v)).fields == Redact(v).fields;
    case List(items) =>
      forall i | 0 <= i < |items| ensures Redact(Redact(items[i])) == Redact(items[i]) {
        RedactIdempotent(items[i]);
      }
      assert Redact(Redact(v)).items == Redact(v).items;
    case Tuple(elements) =>
      forall i | 0 <= i < |elements| ensures Redact(Redact(elements[i])) == Redact(elements[i]) {
        RedactIdempotent(elements[i]);
      }
      assert Redact(Redact(v)).items == Redact(v).items;
    case _ =>
  }

  /** Every mapping reachable in a redacted tree holds `***` under its sensitive keys. */
  ghost predicate SecretFree(v: Value) {
    match v
    case Dict(fields) =>
      forall k | k in fields :: if IsSensitiveKey(k) then fields[k] == Str(REDACTED) else SecretFree(fields[k])
    case List(items) => forall i | 0 <= i < |items| :: SecretFree(items[i])
    case Tuple(elements) => false
    case _ => true
  }

  /** Redaction reaches secret-free trees and leaves exactly those trees alone. */
  lemma {:induction false} RedactFixedPoints(v: Value)
    ensures SecretFree(Redact(v))
    ensures Redact(v) == v <==> SecretFree(v)
  {
    match v
    case Dict(fields) =>
      forall k | k in fields
        ensures SecretFree(Redact(fields[k])) && (Redact(fields[k]) == fields[k] <==> SecretFree(fields[k]))
      {
        RedactFixedPoints(fields[k]);
      }
      var r := Redact(v).fields;
      assert r == fields <==> forall k | k in fields :: r[k] == fields[k];
    case List(items) =>
      forall i | 0 <= i < |items|
        ensures SecretFree(Redact(items[i])) && (Redact(items[i]) == items[i] <==> SecretFree(items[i]))
      {
        RedactFixedPoints(items[i]);
      }
      var r := Redact(v).items;
      assert r == items <==> forall i | 0 <= i < |items| :: r[i] == items[i];
    case Tuple(elements) =>
      forall i | 0 <= i < |elements| ensures SecretFree(Redact(elements[i])) {
        RedactFixedPoints(elements[i]);
      }
    case _ =>
  }
}
