/**
 The event sanitizer: request bodies are dropped and credentials masked in trees of
 dictionaries and lists of any depth.
 */
module Sanitizer {
  import opened Wrappers
  import opened Text

  /** A dictionary key; `text` is its string form. Keys of different types may share it. */
  datatype Key = TextKey(text: string) | OtherKey(text: string)

  /** Anything that is neither a dictionary nor a list passes through untouched. */
  datatype Value =
    | Scalar(text: string)
    | List(items: seq<Value>)
    | Dict(entries: seq<Entry>)

  datatype Entry = Entry(key: Key, value: Value)

  const FILTERED := Scalar("[Filtered]")

  const SENSITIVE_KEYS: seq<string> := [
    "authorization", "cookie", "cookies", "service_key", "service-key", "x-service-key",
    "password", "postgres_password", "vk_group_token", "dsn"
  ]

  const DROPPED_KEYS: seq<string> := ["data", "body"]

  function Underscored(s: string): (r: string)
    ensures |r| == |s|
    ensures forall i :: 0 <= i < |s| ==> r[i] == if s[i] == '-' then '_' else s[i]
  {
    seq(|s|, i requires 0 <= i < |s| => if s[i] == '-' then '_' else s[i])
  }

  predicate IsDropped(k: Key) {
    Lower(k.text) in DROPPED_KEYS
  }

  predicate IsSensitive(k: Key) {
    exists i :: 0 <= i < |SENSITIVE_KEYS| && Underscored(Lower(k.text)) == Underscored(SENSITIVE_KEYS[i])
  }

  /** Equal but for letter case and for dash against underscore. */
  ghost predicate SpelledLike(t: string, canonical: string) {
    && |t| == |canonical|
    && forall i :: 0 <= i < |t| ==>
                     || LowerChar(t[i]) == canonical[i]
                     || (t[i] in "-_" && canonical[i] in "-_")
  }

  /** The names whose values are masked: those a credential travels under. */
  ghost predicate NamesCredential(t: string) {
    || SpelledLike(t, "authorization") || SpelledLike(t, "cookie") || SpelledLike(t, "cookies")
    || SpelledLike(t, "service_key") || SpelledLike(t, "service-key") || SpelledLike(t, "x-service-key")
    || SpelledLike(t, "password") || SpelledLike(t, "postgres_password")
    || SpelledLike(t, "vk_group_token") || SpelledLike(t, "dsn")
  }

  /** The names of request bodies, in any letter case. */
  ghost predicate NamesBody(t: string) {
    Lower(t) == "data" || Lower(t) == "body"
  }

  lemma SameSpelling(t: string, canonical: string)
    ensures SpelledLike(t, canonical) <==> Underscored(Lower(t)) == Underscored(canonical)
  {
    var a, b := Underscored(Lower(t)), Underscored(canonical);
    if |t| == |canonical| {
      forall i | 0 <= i < |t|
        ensures a[i] == b[i] <==> LowerChar(t[i]) == canonical[i] || (t[i] in "-_" && canonical[i] in "-_")
      {
      }
    }
  }

  /** What is dropped and what is masked, by name. */
  lemma MarkedNames(k: Key)
    ensures IsDropped(k) <==> NamesBody(k.text)
    ensures IsSensitive(k) <==> NamesCredential(k.text)
  {
    hide SpelledLike;
    forall i | 0 <= i < |SENSITIVE_KEYS|
      ensures SpelledLike(k.text, SENSITIVE_KEYS[i]) <==> Underscored(Lower(k.text)) == Underscored(SENSITIVE_KEYS[i])
    {
      SameSpelling(k.text, SENSITIVE_KEYS[i]);
    }
    assert SENSITIVE_KEYS[0] == "authorization" && SENSITIVE_KEYS[1] == "cookie" && SENSITIVE_KEYS[2] == "cookies"
        && SENSITIVE_KEYS[3] == "service_key" && SENSITIVE_KEYS[4] == "service-key" && SENSITIVE_KEYS[5] == "x-service-key" && SENSITIVE_KEYS[6] == "password"
        && SENSITIVE_KEYS[7] == "postgres_password" && SENSITIVE_KEYS[8] == "vk_group_token" && SENSITIVE_KEYS[9] == "dsn";
  }

  lemma BodiesAreNoCredentials(t: string)
    ensures !(NamesBody(t) && NamesCredential(t))
  {
  }

  function Sanitize(v: Value): Value
    decreases v, 1
  {
    match v
    case Dict(entries) => Dict(SanitizeEntries(entries))
    case List(items) => List(SanitizeItems(items))
    case Scalar(_) => v
  }

  function SanitizeItems(items: seq<Value>): (r: seq<Value>)
    ensures |r| == |items|
    decreases items, 0
  {
    if items == [] then []
    else [Sanitize(items[0])] + SanitizeItems(items[1..])
  }

  function SanitizeEntries(entries: seq<Entry>): seq<Entry>
    decreases entries, 0
  {
    if entries == [] then []
    else
      var e := entries[0];
      var rest := SanitizeEntries(entries[1..]);
      assert e.value < e;
      if IsDropped(e.key) then rest
      else [Entry(e.key, if IsSensitive(e.key) then FILTERED else Sanitize(e.value))] + rest
  }

  datatype Step = AtKey(key: Key) | AtIndex(index: nat)

  function FindEntry(entries: seq<Entry>, key: Key): Option<Value> {
    if entries == [] then None
    else if entries[0].key == key then Some(entries[0].value)
    else FindEntry(entries[1..], key)
  }

  /** The value a path of keys and indices leads to. */
  function Follow(v: Value, path: seq<Step>): Option<Value>
    decreases |path|
  {
    if path == [] then Some(v)
    else
      match (path[0], v)
      case (AtKey(key), Dict(entries)) =>
        var found := FindEntry(entries, key);
        if found.None? then None else Follow(found.value, path[1..])
      case (AtIndex(i), List(items)) =>
        if i < |items| then Follow(items[i], path[1..]) else None
      case _ => None
  }

  lemma {:induction false} SanitizedItemAt(items: seq<Value>, i: nat)
    requires i < |items|
    ensures SanitizeItems(items)[i] == Sanitize(items[i])
  {
    if i == 0 {
    } else {
      SanitizedItemAt(items[1..], i - 1);
    }
  }

  /** Per key: dropped, masked, or sanitized in place. */
  lemma {:induction false} FindSanitized(entries: seq<Entry>, key: Key)
    ensures
      var found := FindEntry(entries, key);
      FindEntry(SanitizeEntries(entries), key) ==
      if IsDropped(key) || found.None? then None
      else if IsSensitive(key) then Some(FILTERED)
      else Some(Sanitize(found.value))
  {
    if entries == [] {
    } else {
      FindSanitized(entries[1..], key);
    }
  }

  /** No key on the path names a request body or a credential. */
  ghost predicate Plain(path: seq<Step>) {
    forall i :: 0 <= i < |path| && path[i].AtKey? ==> !NamesBody(path[i].key.text) && !NamesCredential(path[i].key.text)
  }

  /** Along other keys and list indices everything is still found where it was. */
  lemma {:induction false} PlainPathsSurvive(v: Value, path: seq<Step>)
    requires Plain(path)
    ensures
      var found := Follow(v, path);
      Follow(Sanitize(v), path) == if found.None? then None else Some(Sanitize(found.value))
    decreases |path|
  {
    if path == [] {
    } else {
      assert Plain(path[1..]);
      hide NamesBody, NamesCredential;
      match (path[0], v)
      case (AtKey(key), Dict(entries)) =>
        FindSanitized(entries, key);
        assert !IsDropped(key) && !IsSensitive(key) by { MarkedNames(key); }
        var found := FindEntry(entries, key);
        if found.Some? { PlainPathsSurvive(found.value, path[1..]); }
      case (AtIndex(i), List(items)) =>
        if i < |items| {
          SanitizedItemAt(items, i);
          PlainPathsSurvive(items[i], path[1..]);
        }
      case _ =>
    }
  }

  /** A scalar reached along such a path is unchanged. */
  lemma PlainScalarsSurvive(v: Value, path: seq<Step>, x: string)
    requires Plain(path)
    ensures Follow(v, path) == Some(Scalar(x)) ==> Follow(Sanitize(v), path) == Some(Scalar(x))
    ensures Follow(Sanitize(v), path) == Some(Scalar(x)) ==> Follow(v, path) == Some(Scalar(x))
  {
    PlainPathsSurvive(v, path);
  }

  /** The keys of a dictionary in order. */
  function KeysOf(entries: seq<Entry>): seq<Key> {
    if entries == [] then [] else [entries[0].key] + KeysOf(entries[1..])
  }

  function WithoutBodies(keys: seq<Key>): seq<Key> {
    if keys == [] then []
    else (if Lower(keys[0].text) == "data" || Lower(keys[0].text) == "body" then [] else [keys[0]]) + WithoutBodies(keys[1..])
  }

  lemma {:induction false} KeysKept(entries: seq<Entry>)
    ensures KeysOf(SanitizeEntries(entries)) == WithoutBodies(KeysOf(entries))
  {
    if entries == [] {
    } else {
      KeysKept(entries[1..]);
      MarkedNames(entries[0].key);
      assert KeysOf(entries)[1..] == KeysOf(entries[1..]);
    }
  }

  /**
   Along plain paths a list stays a list of the same length, and a dictionary stays one with
   the same keys in the same order, but for the request bodies.
   */
  lemma KindsSurvive(v: Value, path: seq<Step>)
    requires Plain(path) && Follow(v, path).Some?
    ensures
      var before, after := Follow(v, path).value, Follow(Sanitize(v), path);
      && after.Some?
      && (before.List? ==> after.value.List? && |after.value.items| == |before.items|)
      && (before.Dict? ==> after.value.Dict? && KeysOf(after.value.entries) == WithoutBodies(KeysOf(before.entries)))
      && (before.Scalar? ==> after.value == before)
  {
    PlainPathsSurvive(v, path);
    var before := Follow(v, path).value;
    if before.Dict? { KeysKept(before.entries); }
  }

  lemma {:induction false} FollowJoin(v: Value, a: seq<Step>, b: seq<Step>)
    ensures
      var found := Follow(v, a);
      Follow(v, a + b) == if found.None? then None else Follow(found.value, b)
    decreases |a|
  {
    if a == [] {
      assert a + b == b;
    } else {
      assert (a + b)[1..] == a[1..] + b;
      match (a[0], v)
      case (AtKey(key), Dict(entries)) =>
        var found := FindEntry(entries, key);
        if found.Some? { FollowJoin(found.value, a[1..], b); }
      case (AtIndex(i), List(items)) =>
        if i < |items| { FollowJoin(items[i], a[1..], b); }
      case _ =>
    }
  }

  /**
   At every dictionary reachable along plain steps: a `data` or `body` key is gone, and a
   sensitive key holds the filter marker, with nothing below it, exactly where it was present.
   */
  lemma MarkedKeysAreCleared(v: Value, path: seq<Step>, key: Key, below: seq<Step>)
    requires Plain(path)
    ensures NamesBody(key.text) ==> Follow(Sanitize(v), path + [AtKey(key)] + below) == None
    ensures NamesCredential(key.text) ==>
              Follow(Sanitize(v), path + [AtKey(key)] + below) ==
              if below == [] && Follow(v, path + [AtKey(key)]).Some? then Some(Scalar("[Filtered]")) else None
  {
    hide NamesBody, NamesCredential;
    MarkedNames(key);
    BodiesAreNoCredentials(key.text);
    PlainPathsSurvive(v, path);
    FollowJoin(v, path, [AtKey(key)]);
    FollowJoin(Sanitize(v), path, [AtKey(key)]);
    FollowJoin(Sanitize(v), path + [AtKey(key)], below);
    var found := Follow(v, path);
    if found.Some? && found.value.Dict? {
      FindSanitized(found.value.entries, key);
      assert [AtKey(key)][1..] == [];
    }
  }

  lemma {:induction false} ItemsIdempotent(items: seq<Value>)
    ensures SanitizeItems(SanitizeItems(items)) == SanitizeItems(items)
    decreases items, 0
  {
    if items == [] {
    } else {
      SanitizeIdempotent(items[0]);
      ItemsIdempotent(items[1..]);
      assert SanitizeItems(items)[1..] == SanitizeItems(items[1..]);
    }
  }

  lemma {:induction false} EntriesIdempotent(entries: seq<Entry>)
    ensures SanitizeEntries(SanitizeEntries(entries)) == SanitizeEntries(entries)
    decreases entries, 0
  {
    if entries == [] {
    } else {
      var e := entries[0];
      EntriesIdempotent(entries[1..]);
      if !IsDropped(e.key) {
        assert e.value < e;
        SanitizeIdempotent(e.value);
        assert SanitizeEntries(entries)[1..] == SanitizeEntries(entries[1..]);
      }
    }
  }

  /** Sanitizing twice is sanitizing once, on trees of any depth. */
  lemma {:induction false} SanitizeIdempotent(v: Value)
    ensures Sanitize(Sanitize(v)) == Sanitize(v)
    decreases v, 1
  {
    match v
    case Dict(entries) => EntriesIdempotent(entries);
    case List(items) => ItemsIdempotent(items);
    case Scalar(_) =>
  }
}
