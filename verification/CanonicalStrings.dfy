/** The strings the request signatures are computed over: sorted key=value pairs, written in a loop that
    cuts its last "&" off, or as a sort-map-join expression (src/crypto.js, src/index.js). */
module CanonicalStrings {
  import opened JsText

  const AMPERSAND: Unit := '&' as int
  const EQUALS: Unit := '=' as int

  // An object's own properties: their values as text, and the order Object.keys lists them in.
  ghost predicate Lists(keys: seq<Text>, fields: map<Text, Text>) {
    && (forall i, j :: 0 <= i < j < |keys| ==> keys[i] != keys[j])
    && (forall k :: k in keys <==> k in fields)
  }

  // --- Array.prototype.sort() on strings: by UTF-16 code units ------------------------------

  predicate Less(a: Text, b: Text) {
    b != [] && (a == [] || a[0] < b[0] || (a[0] == b[0] && Less(a[1..], b[1..])))
  }

  lemma {:induction false} LessIsTotal(a: Text, b: Text)
    ensures Less(a, b) || a == b || Less(b, a)
    ensures !(Less(a, b) && Less(b, a)) && (Less(a, b) ==> a != b)
  {
    if a != [] && b != [] && a[0] == b[0] {
      LessIsTotal(a[1..], b[1..]);
      assert a == [a[0]] + a[1..] && b == [b[0]] + b[1..];
    }
  }

  predicate DiffersAt(a: Text, b: Text, n: nat) {
    n <= |a| && n < |b| && a[..n] == b[..n] && (n == |a| || a[n] < b[n])
  }

  lemma DiffersLater(a: Text, b: Text, n: nat)
    requires a != [] && b != [] && a[0] == b[0]
    ensures DiffersAt(a, b, n + 1) <==> DiffersAt(a[1..], b[1..], n)
  {
    if n + 1 <= |a| && n + 1 < |b| {
      assert a[..n + 1] == [a[0]] + a[1..][..n] && b[..n + 1] == [b[0]] + b[1..][..n];
      assert a[1..][..n] == a[..n + 1][1..] && b[1..][..n] == b[..n + 1][1..];
    }
  }

  lemma {:induction false} LessDiffers(a: Text, b: Text) returns (n: nat)
    requires Less(a, b)
    ensures DiffersAt(a, b, n)
  {
    if a == [] || a[0] < b[0] {
      n := 0;
    } else {
      n := LessDiffers(a[1..], b[1..]);
      DiffersLater(a, b, n);
      n := n + 1;
    }
  }

  lemma {:induction false} DifferingIsLess(a: Text, b: Text, n: nat)
    requires DiffersAt(a, b, n)
    ensures Less(a, b)
  {
    if n > 0 {
      assert a[0] == a[..n][0] && b[0] == b[..n][0];
      DiffersLater(a, b, n - 1);
      DifferingIsLess(a[1..], b[1..], n - 1);
    }
  }

  // The order is that of the first unit in which two texts differ, a text coming before what continues it.
  lemma LessExactly(a: Text, b: Text)
    ensures Less(a, b) <==> exists n: nat :: DiffersAt(a, b, n)
  {
    if Less(a, b) {
      var n := LessDiffers(a, b);
    }
    forall n: nat | DiffersAt(a, b, n)
      ensures Less(a, b)
    {
      DifferingIsLess(a, b, n);
    }
  }

  lemma {:induction false} LessIsTransitive(a: Text, b: Text, c: Text)
    requires Less(a, b) && Less(b, c)
    ensures Less(a, c)
  {
    if a != [] && a[0] == b[0] == c[0] {
      LessIsTransitive(a[1..], b[1..], c[1..]);
    }
  }

  ghost predicate Ascending(keys: seq<Text>) {
    forall i, j :: 0 <= i < j < |keys| ==> Less(keys[i], keys[j])
  }

  function Insert(k: Text, keys: seq<Text>): seq<Text> {
    if keys == [] || Less(k, keys[0]) then [k] + keys else [keys[0]] + Insert(k, keys[1..])
  }

  function Sort(keys: seq<Text>): seq<Text> {
    if keys == [] then [] else Insert(keys[0], Sort(keys[1..]))
  }

  lemma {:induction false} InsertKeepsOrder(k: Text, keys: seq<Text>)
    requires Ascending(keys) && k !in keys
    ensures Ascending(Insert(k, keys))
    ensures forall x :: x in Insert(k, keys) <==> x == k || x in keys
  {
    if keys == [] {
    } else if Less(k, keys[0]) {
      forall j | 0 <= j < |keys|
        ensures Less(k, keys[j])
      {
        if j > 0 {
          LessIsTransitive(k, keys[0], keys[j]);
        }
      }
    } else {
      var rest := Insert(k, keys[1..]);
      InsertKeepsOrder(k, keys[1..]);
      LessIsTotal(k, keys[0]);
      assert keys == [keys[0]] + keys[1..];
      forall j | 0 <= j < |rest|
        ensures Less(keys[0], rest[j])
      {
        assert rest[j] in rest;
      }
    }
  }

  lemma {:induction false} SortSorts(keys: seq<Text>)
    requires forall i, j :: 0 <= i < j < |keys| ==> keys[i] != keys[j]
    ensures Ascending(Sort(keys))
    ensures forall x :: x in Sort(keys) <==> x in keys
  {
    if keys != [] {
      SortSorts(keys[1..]);
      InsertKeepsOrder(keys[0], Sort(keys[1..]));
      assert keys == [keys[0]] + keys[1..];
    }
  }

  // Two ascending sequences with the same elements are the same sequence.
  lemma {:induction false} AscendingIsUnique(a: seq<Text>, b: seq<Text>)
    requires Ascending(a) && Ascending(b)
    requires forall x :: x in a <==> x in b
    ensures a == b
  {
    if a == [] {
      HeadIsMember(b);
    } else {
      assert a[0] in a && b != [] && b[0] in b;
      HeadIsLeast(a, b[0]);
      HeadIsLeast(b, a[0]);
      LessIsTotal(a[0], b[0]);
      assert a[0] == b[0];
      forall x
        ensures x in a[1..] <==> x in b[1..]
      {
        InTail(a, x);
        InTail(b, x);
      }
      AscendingIsUnique(a[1..], b[1..]);
      assert a == [a[0]] + a[1..] && b == [b[0]] + b[1..];
    }
  }

  lemma HeadIsMember(a: seq<Text>)
    ensures a == [] || exists x :: x in a
  {
    if a != [] {
      assert a[0] in a;
    }
  }

  lemma HeadIsLeast(a: seq<Text>, x: Text)
    requires Ascending(a) && x in a
    ensures a[0] == x || Less(a[0], x)
  {
  }

  lemma InTail(a: seq<Text>, x: Text)
    requires Ascending(a) && a != []
    ensures x in a[1..] <==> x in a && x != a[0]
  {
    assert a == [a[0]] + a[1..];
    if x in a[1..] {
      var j :| 0 <= j < |a[1..]| && a[1..][j] == x;
      assert Less(a[0], a[j + 1]);
      LessIsTotal(a[0], x);
    }
  }

  // --- The two ways of writing -------------------------------------------------------------

  function Pair(fields: map<Text, Text>, key: Text): Text
    requires key in fields
  {
    key + [EQUALS] + fields[key]
  }

  // keys.map(...).join("&")
  function Joined(fields: map<Text, Text>, keys: seq<Text>): Text
    requires forall k :: k in keys ==> k in fields
  {
    if keys == [] then []
    else Pair(fields, keys[0]) + (if |keys| == 1 then [] else [AMPERSAND] + Joined(fields, keys[1..]))
  }

  // olive_create_signature, web_create_signature and _venusSortedQuery on an object.
  function SortedQuery(fields: map<Text, Text>, keys: seq<Text>): Text
    requires Lists(keys, fields)
  {
    SortSorts(keys);
    Joined(fields, Sort(keys))
  }

  // text.slice(0, -1)
  function DropLast(t: Text): Text { if t == [] then [] else t[..|t| - 1] }

  // What the loops have appended after the keys given.
  ghost function Appended(fields: map<Text, Text>, keys: seq<Text>): Text
    requires forall k :: k in keys ==> k in fields
  {
    if keys == [] then []
    else Appended(fields, keys[..|keys| - 1]) + Pair(fields, keys[|keys| - 1]) + [AMPERSAND]
  }

  lemma Reassociate(a: Text, b: Text, c: Text, d: Text)
    ensures a + b + c + d == a + (b + c + d)
  {
  }

  lemma {:induction false} AppendedFromFront(fields: map<Text, Text>, keys: seq<Text>)
    requires keys != [] && forall k :: k in keys ==> k in fields
    ensures forall k :: k in keys[1..] ==> k in fields
    ensures Appended(fields, keys) == Pair(fields, keys[0]) + [AMPERSAND] + Appended(fields, keys[1..])
  {
    var n := |keys| - 1;
    if n > 0 {
      var first, last := Pair(fields, keys[0]), Pair(fields, keys[n]);
      AppendedFromFront(fields, keys[..n]);
      assert keys[..n][1..] == keys[1..][..n - 1];
      assert keys[1..][n - 1] == keys[n];
      Reassociate(first + [AMPERSAND], Appended(fields, keys[1..][..n - 1]), last, [AMPERSAND]);
    }
  }

  // Cutting the last "&" off the loop's text leaves the joined text.
  lemma {:induction false} AppendedIsJoined(fields: map<Text, Text>, keys: seq<Text>)
    requires keys != [] && forall k :: k in keys ==> k in fields
    ensures Appended(fields, keys) == Joined(fields, keys) + [AMPERSAND]
  {
    AppendedFromFront(fields, keys);
    if |keys| > 1 {
      AppendedIsJoined(fields, keys[1..]);
      Regroup(Pair(fields, keys[0]), [AMPERSAND], Joined(fields, keys[1..]));
    } else {
      assert keys[1..] == [];
    }
  }

  lemma Regroup(a: Text, b: Text, c: Text)
    ensures a + b + (c + b) == a + (b + c) + b
  {
  }

  lemma AppendStep(head: Text, fields: map<Text, Text>, keys: seq<Text>, i: nat)
    requires i < |keys| && forall k :: k in keys ==> k in fields
    ensures head + Appended(fields, keys[..i]) + keys[i] + [EQUALS] + fields[keys[i]] + [AMPERSAND]
            == head + Appended(fields, keys[..i + 1])
  {
    assert keys[..i + 1][..i] == keys[..i];
    assert keys[..i + 1][i] == keys[i];
    assert Appended(fields, keys[..i + 1]) == Appended(fields, keys[..i]) + Pair(fields, keys[i]) + [AMPERSAND];
  }

  lemma AppendToEmpty(fields: map<Text, Text>, keys: seq<Text>, i: nat)
    requires i < |keys| && forall k :: k in keys ==> k in fields
    ensures Appended(fields, keys[..i]) + keys[i] + [EQUALS] + fields[keys[i]] + [AMPERSAND]
            == Appended(fields, keys[..i + 1])
  {
    AppendStep([], fields, keys, i);
    assert [] + Appended(fields, keys[..i]) == Appended(fields, keys[..i]);
    assert [] + Appended(fields, keys[..i + 1]) == Appended(fields, keys[..i + 1]);
  }

  lemma CutLast(head: Text, t: Text)
    ensures DropLast(head + (t + [AMPERSAND])) == head + t
  {
  }

  // The loop of oliveCreateSignature: the string it hashes is the sort-map-join one, for every object.
  method OliveBody(fields: map<Text, Text>, keys: seq<Text>) returns (body: Text)
    requires Lists(keys, fields)
    ensures body == SortedQuery(fields, keys)
  {
    SortSorts(keys);
    var sorted := Sort(keys);
    body := [];
    for i := 0 to |sorted|
      invariant body == Appended(fields, sorted[..i])
    {
      AppendToEmpty(fields, sorted, i);
      body := body + sorted[i] + [EQUALS] + fields[sorted[i]] + [AMPERSAND];
    }
    assert sorted[..|sorted|] == sorted;
    if sorted != [] {
      AppendedIsJoined(fields, sorted);
    }
    body := DropLast(body);
  }

  // The loops of fordCreateSignature and ford_create_signature: the cut takes the "&", or, when there
  // are no fields at all, the last character of the path.
  method FordBody(verb: Text, path: Text, fields: map<Text, Text>, keys: seq<Text>, secret: Text) returns (body: Text)
    requires Lists(keys, fields)
    ensures body == (if keys == [] then DropLast(verb + path) else verb + path + SortedQuery(fields, keys)) + secret
  {
    SortSorts(keys);
    var sorted := Sort(keys);
    body := verb + path;
    for i := 0 to |sorted|
      invariant body == verb + path + Appended(fields, sorted[..i])
    {
      AppendStep(verb + path, fields, sorted, i);
      body := body + sorted[i] + [EQUALS] + fields[sorted[i]] + [AMPERSAND];
    }
    assert sorted[..|sorted|] == sorted;
    SortIsEmpty(keys);
    if sorted != [] {
      AppendedIsJoined(fields, sorted);
      CutLast(verb + path, Joined(fields, sorted));
    }
    body := DropLast(body) + secret;
  }

  lemma SortIsEmpty(keys: seq<Text>)
    ensures Sort(keys) == [] <==> keys == []
  {
  }

  // Two fields, sign by sign: the one whose key comes first is written first.
  lemma TwoFieldsWritten(k: Text, l: Text, v: Text, w: Text)
    requires Less(k, l)
    ensures k != l
    ensures SortedQuery(map[k := v, l := w], [l, k]) == k + Ascii("=") + v + Ascii("&") + l + Ascii("=") + w
  {
    LessIsTotal(k, l);
    var fields := map[k := v, l := w];
    assert Ascii("=") == [EQUALS] && Ascii("&") == [AMPERSAND];
    assert [k][1..] == [] && [l, k][1..] == [k];
    assert Sort([]) == [] && Sort([k]) == [k];
    assert Insert(l, []) == [l] && Insert(l, [k]) == [k] + Insert(l, [k][1..]);
    assert Sort([l, k]) == [k, l];
    JoinedPair(fields, k, l);
  }

  lemma JoinedPair(fields: map<Text, Text>, k: Text, l: Text)
    requires k in fields && l in fields
    ensures Joined(fields, [k, l]) == k + [EQUALS] + fields[k] + [AMPERSAND] + l + [EQUALS] + fields[l]
  {
    assert [k, l][1..] == [l];
    assert Joined(fields, [l]) == Pair(fields, l);
  }

  // --- Independence of insertion order -----------------------------------------------------

  lemma OrderDoesNotMatter(fields: map<Text, Text>, keys: seq<Text>, other: seq<Text>)
    requires Lists(keys, fields) && Lists(other, fields)
    ensures SortedQuery(fields, keys) == SortedQuery(fields, other)
  {
    SortSorts(keys);
    SortSorts(other);
    AscendingIsUnique(Sort(keys), Sort(other));
  }

  // fordCreatePayload signs the payload with token, key and timestamp added.
  function FordAugmented(payload: map<Text, Text>, verb: Text, token: Text, appKey: Text, timestamp: Text): map<Text, Text> {
    payload[(if verb == Ascii("get") then Ascii("access_token") else Ascii("accessToken")) := token]
    [Ascii("key") := appKey][Ascii("timestamp") := timestamp]
  }

  lemma FordNamesDiffer()
    ensures Ascii("access_token") != Ascii("accessToken")
    ensures Ascii("key") !in {Ascii("access_token"), Ascii("accessToken"), Ascii("timestamp")}
    ensures Ascii("timestamp") !in {Ascii("access_token"), Ascii("accessToken")}
  {
    assert |Ascii("access_token")| == 12 && |Ascii("accessToken")| == 11 && |Ascii("key")| == 3 && |Ascii("timestamp")| == 9;
  }

  // What is signed is the payload with the token, under its name for the method, the key and the time added.
  lemma FordSigns(payload: map<Text, Text>, verb: Text, token: Text, appKey: Text, timestamp: Text)
    ensures var f := FordAugmented(payload, verb, token, appKey, timestamp);
            var name := if verb == Ascii("get") then Ascii("access_token") else Ascii("accessToken");
            && name in f && f[name] == token
            && Ascii("key") in f && f[Ascii("key")] == appKey
            && Ascii("timestamp") in f && f[Ascii("timestamp")] == timestamp
            && forall k | k !in {name, Ascii("key"), Ascii("timestamp")} :: (k in f <==> k in payload) && (k in f ==> f[k] == payload[k])
  {
    FordNamesDiffer();
  }

  // So the cut never reaches the path; and it would exactly on an empty object.
  lemma FordPathIsKept(fields: map<Text, Text>, keys: seq<Text>, head: Text)
    requires Lists(keys, fields) && head != []
    ensures (if keys == [] then DropLast(head) else head + SortedQuery(fields, keys)) == head + SortedQuery(fields, keys)
            <==> fields != map[]
    ensures forall payload, verb, token, appKey, timestamp ::
              fields == FordAugmented(payload, verb, token, appKey, timestamp) ==> fields != map[]
  {
    if keys == [] {
      assert SortedQuery(fields, keys) == [];
      assert fields == map[] by {
        assert forall k :: k !in fields;
      }
    } else {
      assert keys[0] in fields;
    }
    forall payload, verb, token, appKey, timestamp | fields == FordAugmented(payload, verb, token, appKey, timestamp)
      ensures fields != map[]
    {
      assert Ascii("timestamp") in fields;
    }
  }

  // --- Reading the string back -------------------------------------------------------------

  function IndexOf(t: Text, u: Unit): (n: nat)
    ensures n <= |t| && (n < |t| ==> t[n] == u) && forall i :: 0 <= i < n ==> t[i] != u
  {
    if t == [] || t[0] == u then 0 else 1 + IndexOf(t[1..], u)
  }

  function SplitPair(t: Text): (Text, Text) {
    var n := IndexOf(t, EQUALS);
    if n < |t| then (t[..n], t[n + 1..]) else (t, [])
  }

  function ParsePairs(t: Text): seq<(Text, Text)> {
    var n := IndexOf(t, AMPERSAND);
    [SplitPair(t[..n])] + (if n < |t| then ParsePairs(t[n + 1..]) else [])
  }

  function ParseQuery(t: Text): seq<(Text, Text)> { if t == [] then [] else ParsePairs(t) }

  function MapOf(pairs: seq<(Text, Text)>): map<Text, Text> {
    if pairs == [] then map[] else MapOf(pairs[1..])[pairs[0].0 := pairs[0].1]
  }

  ghost predicate Separable(fields: map<Text, Text>) {
    forall k :: k in fields ==> AMPERSAND !in k && EQUALS !in k && AMPERSAND !in fields[k]
  }

  lemma IndexIs(t: Text, u: Unit, n: nat)
    requires n <= |t| && (n < |t| ==> t[n] == u) && forall i :: 0 <= i < n ==> t[i] != u
    ensures IndexOf(t, u) == n
  {
  }

  lemma PairReads(fields: map<Text, Text>, key: Text, rest: Text)
    requires key in fields && Separable(fields)
    requires rest == [] || rest[0] == AMPERSAND
    ensures var t := Pair(fields, key) + rest;
            var n := IndexOf(t, AMPERSAND);
            n == |Pair(fields, key)| && t[..n] == Pair(fields, key) && SplitPair(Pair(fields, key)) == (key, fields[key])
  {
    var p := Pair(fields, key);
    var t := p + rest;
    forall i | 0 <= i < |p|
      ensures t[i] != AMPERSAND
    {
      assert i < |key| ==> p[i] in key;
      assert i > |key| ==> p[i] in fields[key];
    }
    IndexIs(t, AMPERSAND, |p|);
    forall i | 0 <= i < |key|
      ensures p[i] != EQUALS
    {
      assert p[i] in key;
    }
    IndexIs(p, EQUALS, |key|);
    assert p[..|key|] == key && p[|key| + 1..] == fields[key];
  }

  ghost function Pairs(fields: map<Text, Text>, keys: seq<Text>): seq<(Text, Text)>
    requires forall k :: k in keys ==> k in fields
  {
    seq(|keys|, i requires 0 <= i < |keys| => (keys[i], fields[keys[i]]))
  }

  lemma ChunkThenMore(p: Text, rest: Text)
    requires IndexOf(p + ([AMPERSAND] + rest), AMPERSAND) == |p|
    ensures ParsePairs(p + ([AMPERSAND] + rest)) == [SplitPair(p)] + ParsePairs(rest)
  {
    var t := p + ([AMPERSAND] + rest);
    assert t[..|p|] == p && t[|p| + 1..] == rest;
  }

  lemma LastChunk(p: Text)
    requires IndexOf(p, AMPERSAND) == |p|
    ensures ParsePairs(p) == [SplitPair(p)]
  {
    assert p[..|p|] == p;
  }

  lemma PairsCons(fields: map<Text, Text>, keys: seq<Text>)
    requires keys != [] && forall k :: k in keys ==> k in fields
    ensures Pairs(fields, keys) == [(keys[0], fields[keys[0]])] + Pairs(fields, keys[1..])
  {
  }

  lemma {:induction false} JoinedReads(fields: map<Text, Text>, keys: seq<Text>)
    requires keys != [] && (forall k :: k in keys ==> k in fields) && Separable(fields)
    ensures ParsePairs(Joined(fields, keys)) == Pairs(fields, keys)
  {
    var p := Pair(fields, keys[0]);
    PairsCons(fields, keys);
    if |keys| == 1 {
      PairReads(fields, keys[0], []);
      assert p + [] == p;
      LastChunk(p);
    } else {
      var rest := Joined(fields, keys[1..]);
      PairReads(fields, keys[0], [AMPERSAND] + rest);
      ChunkThenMore(p, rest);
      JoinedReads(fields, keys[1..]);
    }
  }

  lemma {:induction false} MapOfPairs(fields: map<Text, Text>, keys: seq<Text>)
    requires forall k :: k in keys ==> k in fields
    ensures MapOf(Pairs(fields, keys)) == map k | k in keys :: fields[k]
  {
    if keys != [] {
      MapOfPairs(fields, keys[1..]);
      assert Pairs(fields, keys)[1..] == Pairs(fields, keys[1..]);
      assert keys == [keys[0]] + keys[1..];
    }
  }

  // The object can be read back from the string when "&" and "=" keep out of the way.
  lemma QueryReadsBack(fields: map<Text, Text>, keys: seq<Text>)
    requires Lists(keys, fields) && Separable(fields)
    ensures MapOf(ParseQuery(SortedQuery(fields, keys))) == fields
  {
    SortSorts(keys);
    SortIsEmpty(keys);
    var sorted := Sort(keys);
    if sorted == [] {
      assert fields == map[] by {
        assert forall k :: k !in fields;
      }
    } else {
      assert EQUALS in Pair(fields, sorted[0]) && Joined(fields, sorted) != [];
      JoinedReads(fields, sorted);
      MapOfPairs(fields, sorted);
    }
  }

  // Distinct separable objects therefore have distinct strings.
  lemma QueryIsInjective(a: map<Text, Text>, aKeys: seq<Text>, b: map<Text, Text>, bKeys: seq<Text>)
    requires Lists(aKeys, a) && Lists(bKeys, b) && Separable(a) && Separable(b)
    ensures SortedQuery(a, aKeys) == SortedQuery(b, bKeys) <==> a == b
  {
    QueryReadsBack(a, aKeys);
    QueryReadsBack(b, bKeys);
    if a == b {
      OrderDoesNotMatter(a, aKeys, bKeys);
    }
  }
}
