/** The byte strings that direct messages and federation events sign. */
module SignedPayloads {
  import opened Wrappers
  import opened SortedKeys
  import opened CanonicalJson
  import opened JsonMeaning

  /** A ratchet header as it is serialised; absent optional fields are left out. */
  datatype HeaderFields = HeaderFields(dh: string, pn: nat, n: nat, kemCt: Option<string>, kemPub: Option<string>)

  datatype InnerFields = InnerFields(kind: string, body: Json, sender: string, ts: int, rh: Option<HeaderFields>)

  datatype EventFields = EventFields(eventType: string, payload: Json, sender: string, ts: int)

  function Optional(key: string, s: Option<string>): map<string, Json> {
    if s.Some? then map[key := Str(s.value)] else map[]
  }

  function HeaderValue(h: HeaderFields): Json {
    Obj(map["dh" := Str(h.dh), "pn" := Num(Whole(h.pn)), "n" := Num(Whole(h.n))]
        + Optional("kem_ct", h.kemCt) + Optional("kem_pub", h.kemPub))
  }

  /** `rh` joins the signed object only when it is present. */
  function InnerValue(x: InnerFields): Json {
    Obj(map["kind" := Str(x.kind), "body" := x.body, "sender_did" := Str(x.sender), "ts" := Num(Whole(x.ts))]
        + if x.rh.Some? then map["rh" := HeaderValue(x.rh.value)] else map[])
  }

  function InnerSignBytes(x: InnerFields): string {
    Canon(InnerValue(x))
  }

  function EventValue(x: EventFields): Json {
    Obj(map["type" := Str(x.eventType), "payload" := x.payload, "sender_did" := Str(x.sender),
            "ts" := Num(Whole(x.ts))])
  }

  function EventSignBytes(x: EventFields): string {
    Canon(EventValue(x))
  }

  // ── The bytes, spelled out ────────────────────────────────────────────────

  /** A key and the text of its value. */
  type Member = (string, string)

  /** Members in the order given, with commas between; their keys need no escaping. */
  ghost function Spelled(ms: seq<Member>): string {
    if ms == [] then ""
    else
      var last := |ms| - 1;
      Spelled(ms[..last]) + (if last == 0 then "" else ",") + ("\"" + ms[last].0 + "\"" + ":" + ms[last].1)
  }

  ghost function KeysOf(ms: seq<Member>): seq<string> {
    seq(|ms|, i requires 0 <= i < |ms| => ms[i].0)
  }

  ghost predicate Plain(key: string) {
    forall i :: 0 <= i < |key| ==> key[i] as int >= 32 && key[i] != '"' && key[i] != '\\'
  }

  /** The members are the fields of the object, each once, in ascending order of the keys. */
  ghost predicate Lists(ms: seq<Member>, v: Json)
    requires v.Obj?
  {
    && Ascending(KeysOf(ms))
    && (forall k :: k in KeysOf(ms) <==> k in v.fields)
    && (forall i :: 0 <= i < |ms| ==> ms[i].0 in v.fields && Plain(ms[i].0) && ms[i].1 == Canon(v.fields[ms[i].0]))
  }

  lemma {:induction false} JoinedIsSpelled(v: Json, ms: seq<Member>, n: nat)
    requires v.Obj? && Lists(ms, v) && n <= |ms|
    ensures Joined(v, KeysOf(ms), n) == Spelled(ms[..n])
  {
    hide Canon, Quote, Ascending, Plain;
    if n > 0 {
      JoinedIsSpelled(v, ms, n - 1);
      assert ms[..n][..n - 1] == ms[..n - 1];
      PlainIsQuoted(ms[n - 1].0);
    }
  }

  lemma PlainIsQuoted(key: string)
    requires Plain(key)
    ensures Quote(key) == "\"" + key + "\""
  {
    PlainQuote(key);
  }

  /** An object's text is its members spelled out. */
  lemma ObjectIsSpelled(v: Json, ms: seq<Member>)
    requires v.Obj? && Lists(ms, v)
    ensures Canon(v) == "{" + Spelled(ms) + "}"
  {
    ObjectPrints(v, KeysOf(ms));
    JoinedIsSpelled(v, ms, |ms|);
    assert ms[..|ms|] == ms;
    hide Canon, Joined, Spelled, Lists;
  }

  ghost function EventMembers(x: EventFields): seq<Member> {
    [("payload", Canon(x.payload)), ("sender_did", Quote(x.sender))]
      + [("ts", Decimal(x.ts)), ("type", Quote(x.eventType))]
  }

  ghost function HeaderMembers(h: HeaderFields): seq<Member> {
    [("dh", Quote(h.dh))]
      + (if h.kemCt.Some? then [("kem_ct", Quote(h.kemCt.value))] else [])
      + (if h.kemPub.Some? then [("kem_pub", Quote(h.kemPub.value))] else [])
      + [("n", Decimal(h.n)), ("pn", Decimal(h.pn))]
  }

  ghost function InnerMembers(x: InnerFields): seq<Member> {
    [("body", Canon(x.body)), ("kind", Quote(x.kind))]
      + (if x.rh.Some? then [("rh", "{" + Spelled(HeaderMembers(x.rh.value)) + "}")] else [])
      + [("sender_did", Quote(x.sender)), ("ts", Decimal(x.ts))]
  }

  lemma AtomsPrint(s: string, i: int)
    ensures Canon(Str(s)) == Quote(s) && Canon(Num(Whole(i))) == Decimal(i)
  {
  }

  lemma EventKeysAscend()
    ensures Ascending(["payload", "sender_did", "ts", "type"])
  {
    hide Precedes;
    FirstCharDecides("payload", "sender_did");
    FirstCharDecides("payload", "ts");
    FirstCharDecides("payload", "type");
    FirstCharDecides("sender_did", "ts");
    FirstCharDecides("sender_did", "type");
    SecondCharDecides("ts", "type");
  }

  lemma EventListed(x: EventFields)
    ensures Lists(EventMembers(x), EventValue(x))
  {
    EventKeysAscend();
    AtomsPrint(x.sender, x.ts);
    AtomsPrint(x.eventType, x.ts);
    hide Canon, Quote, Decimal, Ascending;
    assert KeysOf(EventMembers(x)) == ["payload", "sender_did", "ts", "type"];
  }

  /** The bytes an event signs. */
  lemma EventBytesAre(x: EventFields)
    ensures EventSignBytes(x) == "{" + Spelled(EventMembers(x)) + "}"
  {
    EventListed(x);
    ObjectIsSpelled(EventValue(x), EventMembers(x));
  }

  lemma HeaderKeysPrecede()
    ensures Precedes("dh", "kem_ct") && Precedes("dh", "kem_pub") && Precedes("dh", "n") && Precedes("dh", "pn")
    ensures Precedes("kem_ct", "kem_pub") && Precedes("kem_ct", "n") && Precedes("kem_ct", "pn")
    ensures Precedes("kem_pub", "n") && Precedes("kem_pub", "pn") && Precedes("n", "pn")
  {
    FirstCharDecides("dh", "kem_ct");
    FirstCharDecides("dh", "kem_pub");
    FirstCharDecides("dh", "n");
    FirstCharDecides("dh", "pn");
    FirstCharDecides("kem_ct", "n");
    FirstCharDecides("kem_ct", "pn");
    FirstCharDecides("kem_pub", "n");
    FirstCharDecides("kem_pub", "pn");
    FirstCharDecides("n", "pn");
    assert FirstDifference("kem_ct", "kem_pub", 4);
  }

  lemma HeaderAscends(h: HeaderFields)
    ensures Ascending(KeysOf(HeaderMembers(h)))
  {
    HeaderKeysPrecede();
    hide Precedes, Quote, Decimal;
  }

  /** A member that is a field of the object, under a key that needs no escaping. */
  ghost predicate IsField(m: Member, v: Json)
    requires v.Obj?
  {
    m.0 in v.fields && Plain(m.0) && m.1 == Canon(v.fields[m.0])
  }

  lemma ListsIf(ms: seq<Member>, v: Json)
    requires v.Obj? && Ascending(KeysOf(ms)) && (forall m :: m in ms ==> IsField(m, v))
    requires forall k :: k in v.fields ==> exists i :: 0 <= i < |ms| && ms[i].0 == k
    ensures Lists(ms, v)
  {
    hide Ascending, Canon, Plain;
    forall k ensures k in KeysOf(ms) <==> k in v.fields {
      if k in v.fields {
        var i :| 0 <= i < |ms| && ms[i].0 == k;
        assert KeysOf(ms)[i] == k;
      }
      if k in KeysOf(ms) {
        var i :| 0 <= i < |ms| && KeysOf(ms)[i] == k;
        assert IsField(ms[i], v);
      }
    }
    forall i | 0 <= i < |ms| ensures IsField(ms[i], v) {
      assert ms[i] in ms;
    }
  }

  lemma HeaderFieldsPrint(h: HeaderFields)
    ensures forall m :: m in HeaderMembers(h) ==> IsField(m, HeaderValue(h))
  {
    hide Canon, Quote, Decimal, Plain, HeaderValue;
    HeaderFieldsAre(h);
    HeaderKeysPlain();
    AtomsPrint(h.dh, h.n);
    AtomsPrint(h.dh, h.pn);
    if h.kemCt.Some? { AtomsPrint(h.kemCt.value, 0); }
    if h.kemPub.Some? { AtomsPrint(h.kemPub.value, 0); }
  }

  lemma HeaderKeysPlain()
    ensures Plain("dh") && Plain("kem_ct") && Plain("kem_pub") && Plain("n") && Plain("pn")
  {
  }

  lemma HeaderFieldsAre(h: HeaderFields)
    ensures HeaderValue(h).Obj?
    ensures var f := HeaderValue(h).fields;
            && "dh" in f && f["dh"] == Str(h.dh)
            && "pn" in f && f["pn"] == Num(Whole(h.pn))
            && "n" in f && f["n"] == Num(Whole(h.n))
            && ("kem_ct" in f <==> h.kemCt.Some?) && (h.kemCt.Some? ==> f["kem_ct"] == Str(h.kemCt.value))
            && ("kem_pub" in f <==> h.kemPub.Some?) && (h.kemPub.Some? ==> f["kem_pub"] == Str(h.kemPub.value))
  {
    HeaderKeysDiffer();
  }

  lemma HeaderFieldsCovered(h: HeaderFields, k: string)
    requires k in HeaderValue(h).fields
    ensures exists i :: 0 <= i < |HeaderMembers(h)| && HeaderMembers(h)[i].0 == k
  {
    hide Quote, Decimal;
    var ms := HeaderMembers(h);
    assert ms[0].0 == "dh" && ms[|ms| - 1].0 == "pn" && ms[|ms| - 2].0 == "n";
    assert h.kemCt.Some? ==> ms[1].0 == "kem_ct";
    assert h.kemPub.Some? ==> ms[|ms| - 3].0 == "kem_pub";
  }

  lemma HeaderListed(h: HeaderFields)
    ensures Lists(HeaderMembers(h), HeaderValue(h))
  {
    HeaderAscends(h);
    HeaderFieldsPrint(h);
    forall k | k in HeaderValue(h).fields
      ensures exists i :: 0 <= i < |HeaderMembers(h)| && HeaderMembers(h)[i].0 == k
    {
      HeaderFieldsCovered(h, k);
    }
    hide HeaderMembers, Ascending, IsField, Lists;
    ListsIf(HeaderMembers(h), HeaderValue(h));
  }

  /** A header's text inside a signed message. */
  lemma HeaderTextIs(h: HeaderFields)
    ensures Canon(HeaderValue(h)) == "{" + Spelled(HeaderMembers(h)) + "}"
  {
    HeaderListed(h);
    ObjectIsSpelled(HeaderValue(h), HeaderMembers(h));
  }

  lemma InnerKeysPrecede()
    ensures Precedes("body", "kind") && Precedes("body", "rh") && Precedes("body", "sender_did")
    ensures Precedes("body", "ts") && Precedes("kind", "rh") && Precedes("kind", "sender_did") && Precedes("kind", "ts")
    ensures Precedes("rh", "sender_did") && Precedes("rh", "ts") && Precedes("sender_did", "ts")
  {
    FirstCharDecides("body", "kind");
    FirstCharDecides("body", "rh");
    FirstCharDecides("body", "sender_did");
    FirstCharDecides("body", "ts");
    FirstCharDecides("kind", "rh");
    FirstCharDecides("kind", "sender_did");
    FirstCharDecides("kind", "ts");
    FirstCharDecides("rh", "sender_did");
    FirstCharDecides("rh", "ts");
    FirstCharDecides("sender_did", "ts");
  }

  lemma InnerAscends(x: InnerFields)
    ensures Ascending(KeysOf(InnerMembers(x)))
  {
    InnerKeysPrecede();
    hide Precedes, Quote, Decimal, Canon, Spelled, HeaderMembers;
  }

  lemma InnerFieldsPrint(x: InnerFields)
    ensures forall m :: m in InnerMembers(x) ==> IsField(m, InnerValue(x))
  {
    hide Canon, Quote, Decimal, Spelled, HeaderMembers, HeaderValue, InnerValue, Plain;
    InnerFieldsAre(x);
    InnerKeysPlain();
    AtomsPrint(x.kind, x.ts);
    AtomsPrint(x.sender, x.ts);
    if x.rh.Some? { HeaderTextIs(x.rh.value); }
  }

  lemma InnerKeysPlain()
    ensures Plain("body") && Plain("kind") && Plain("rh") && Plain("sender_did") && Plain("ts")
  {
  }

  lemma InnerFieldsAre(x: InnerFields)
    ensures InnerValue(x).Obj?
    ensures var f := InnerValue(x).fields;
            && "kind" in f && f["kind"] == Str(x.kind) && "body" in f && f["body"] == x.body
            && "sender_did" in f && f["sender_did"] == Str(x.sender) && "ts" in f && f["ts"] == Num(Whole(x.ts))
            && ("rh" in f <==> x.rh.Some?) && (x.rh.Some? ==> f["rh"] == HeaderValue(x.rh.value))
            && "type" !in f
  {
    hide HeaderValue;
  }

  lemma InnerFieldsCovered(x: InnerFields, k: string)
    requires k in InnerValue(x).fields
    ensures exists i :: 0 <= i < |InnerMembers(x)| && InnerMembers(x)[i].0 == k
  {
    hide Quote, Decimal, Canon, Spelled, HeaderMembers, HeaderValue;
    var ms := InnerMembers(x);
    assert ms[0].0 == "body" && ms[1].0 == "kind" && ms[|ms| - 2].0 == "sender_did" && ms[|ms| - 1].0 == "ts";
    assert x.rh.Some? ==> ms[2].0 == "rh";
  }

  lemma InnerListed(x: InnerFields)
    ensures Lists(InnerMembers(x), InnerValue(x))
  {
    InnerAscends(x);
    InnerFieldsPrint(x);
    forall k | k in InnerValue(x).fields
      ensures exists i :: 0 <= i < |InnerMembers(x)| && InnerMembers(x)[i].0 == k
    {
      InnerFieldsCovered(x, k);
    }
    hide InnerMembers, Ascending, IsField, Lists;
    ListsIf(InnerMembers(x), InnerValue(x));
  }

  /** The bytes a direct message signs: without a header, exactly what was signed before there were headers. */
  lemma InnerBytesAre(x: InnerFields)
    ensures InnerSignBytes(x) == "{" + Spelled(InnerMembers(x)) + "}"
  {
    InnerListed(x);
    ObjectIsSpelled(InnerValue(x), InnerMembers(x));
  }

  // ── Injectivity ───────────────────────────────────────────────────────────

  lemma HeaderKeysDiffer()
    ensures "dh" != "pn" && "n" != "dh" && "n" != "pn"
    ensures "dh" != "kem_ct" && "pn" != "kem_ct" && "n" != "kem_ct" && "kem_ct" != "kem_pub"
    ensures "dh" != "kem_pub" && "pn" != "kem_pub" && "n" != "kem_pub"
  {
    assert "dh"[0] != "pn"[0];
    assert |"n"| == 1 && |"dh"| == 2 && |"pn"| == 2 && |"kem_ct"| == 6 && |"kem_pub"| == 7;
  }

  lemma HeaderFieldsShow(h: HeaderFields)
    ensures var m := Coerced(HeaderValue(h)).fields;
            && "dh" in m && m["dh"] == Str(h.dh)
            && "pn" in m && m["pn"] == Num(Whole(h.pn))
            && "n" in m && m["n"] == Num(Whole(h.n))
            && ("kem_ct" in m <==> h.kemCt.Some?) && (h.kemCt.Some? ==> m["kem_ct"] == Str(h.kemCt.value))
            && ("kem_pub" in m <==> h.kemPub.Some?) && (h.kemPub.Some? ==> m["kem_pub"] == Str(h.kemPub.value))
  {
    hide HeaderValue, Coerced;
    HeaderFieldsAre(h);
    FieldsAreCoerced(HeaderValue(h).fields);
    AtomsAreCoerced(h.dh, h.n);
    AtomsAreCoerced(h.dh, h.pn);
    if h.kemCt.Some? { AtomsAreCoerced(h.kemCt.value, 0); }
    if h.kemPub.Some? { AtomsAreCoerced(h.kemPub.value, 0); }
  }

  lemma HeaderValueInjective(a: HeaderFields, b: HeaderFields)
    ensures Coerced(HeaderValue(a)) == Coerced(HeaderValue(b)) <==> a == b
  {
    HeaderFieldsShow(a);
    HeaderFieldsShow(b);
    hide HeaderValue, Coerced;
  }

  /** What the coerced object holds, key by key. */
  lemma InnerFieldsShow(x: InnerFields)
    ensures var m := Coerced(InnerValue(x)).fields;
            && "kind" in m && m["kind"] == Str(x.kind)
            && "body" in m && m["body"] == Coerced(x.body)
            && "sender_did" in m && m["sender_did"] == Str(x.sender)
            && "ts" in m && m["ts"] == Num(Whole(x.ts))
            && ("rh" in m <==> x.rh.Some?)
            && (x.rh.Some? ==> m["rh"] == Coerced(HeaderValue(x.rh.value)))
            && "type" !in m
  {
    hide Coerced, HeaderValue, InnerValue;
    InnerFieldsAre(x);
    FieldsAreCoerced(InnerValue(x).fields);
    AtomsAreCoerced(x.kind, x.ts);
    AtomsAreCoerced(x.sender, x.ts);
  }

  lemma FieldsAreCoerced(f: map<string, Json>)
    ensures Coerced(Obj(f)).Obj? && Coerced(Obj(f)).fields.Keys == f.Keys
    ensures forall k :: k in f ==> Coerced(Obj(f)).fields[k] == Coerced(f[k])
  {
  }

  lemma AtomsAreCoerced(s: string, i: int)
    ensures Coerced(Str(s)) == Str(s) && Coerced(Num(Whole(i))) == Num(Whole(i))
  {
  }

  /**
   Two messages sign the same bytes iff they agree in kind, sender, time and header (its presence
   included) and their bodies are the same JSON up to coercion.
   */
  lemma InnerSignBytesInjective(a: InnerFields, b: InnerFields)
    ensures InnerSignBytes(a) == InnerSignBytes(b) <==>
              && a.kind == b.kind && a.sender == b.sender && a.ts == b.ts && a.rh == b.rh
              && Coerced(a.body) == Coerced(b.body)
  {
    CanonInjective(InnerValue(a), InnerValue(b));
    InnerFieldsShow(a);
    InnerFieldsShow(b);
    if a.rh.Some? && b.rh.Some? {
      HeaderValueInjective(a.rh.value, b.rh.value);
    }
    if a.kind == b.kind && a.sender == b.sender && a.ts == b.ts && a.rh == b.rh && Coerced(a.body) == Coerced(b.body) {
      SameFieldsSameObject(a, b);
    }
  }

  lemma SameFieldsSameObject(a: InnerFields, b: InnerFields)
    requires a.kind == b.kind && a.sender == b.sender && a.ts == b.ts && a.rh == b.rh
    requires Coerced(a.body) == Coerced(b.body)
    ensures Coerced(InnerValue(a)) == Coerced(InnerValue(b))
  {
    var x, y := InnerValue(a).fields, InnerValue(b).fields;
    hide HeaderValue, Coerced;
    assert x.Keys == y.Keys;
    forall k | k in x ensures Coerced(x[k]) == Coerced(y[k]) {
      assert x[k] == y[k] || (x[k] == a.body && y[k] == b.body);
    }
    SameCoercedFields(x, y);
  }

  lemma SameCoercedFields(x: map<string, Json>, y: map<string, Json>)
    requires x.Keys == y.Keys && forall k :: k in x ==> Coerced(x[k]) == Coerced(y[k])
    ensures Coerced(Obj(x)) == Coerced(Obj(y))
  {
  }

  lemma EventFieldsShow(x: EventFields)
    ensures var m := Coerced(EventValue(x)).fields;
            && "type" in m && m["type"] == Str(x.eventType)
            && "payload" in m && m["payload"] == Coerced(x.payload)
            && "sender_did" in m && m["sender_did"] == Str(x.sender)
            && "ts" in m && m["ts"] == Num(Whole(x.ts))
            && m.Keys == {"type", "payload", "sender_did", "ts"}
            && Coerced(EventValue(x)) == Obj(m)
  {
  }

  lemma EventSignBytesInjective(a: EventFields, b: EventFields)
    ensures EventSignBytes(a) == EventSignBytes(b) <==>
              && a.eventType == b.eventType && a.sender == b.sender && a.ts == b.ts
              && Coerced(a.payload) == Coerced(b.payload)
  {
    CanonInjective(EventValue(a), EventValue(b));
    EventFieldsShow(a);
    EventFieldsShow(b);
    hide Canon, EventValue, Coerced;
    var x, y := Coerced(EventValue(a)).fields, Coerced(EventValue(b)).fields;
    if a.eventType == b.eventType && a.sender == b.sender && a.ts == b.ts && Coerced(a.payload) == Coerced(b.payload) {
      assert x == y;
    }
  }

  /** A signature over an event never verifies as one over a direct message. */
  lemma EventsAndMessagesApart(e: EventFields, m: InnerFields)
    ensures EventSignBytes(e) != InnerSignBytes(m)
  {
    CanonInjective(EventValue(e), InnerValue(m));
    EventFieldsShow(e);
    InnerFieldsShow(m);
  }

  /** With integer bodies, which are all the program builds, the signed bytes are the message. */
  lemma WholeInnerSignBytesInjective(a: InnerFields, b: InnerFields)
    requires AllWhole(a.body) && AllWhole(b.body)
    ensures InnerSignBytes(a) == InnerSignBytes(b) <==> a == b
  {
    InnerSignBytesInjective(a, b);
    WholeIsCoerced(a.body);
    WholeIsCoerced(b.body);
  }

  /** Over all bodies, a signature protects a body's meaning exactly when no number in it prints as zero. */
  lemma BodyIsProtectedExactly(a: InnerFields)
    ensures (forall b: InnerFields :: InnerSignBytes(b) == InnerSignBytes(a) ==> Meant(b.body) == Meant(a.body))
            <==> NoZero(a.body)
  {
    if NoZero(a.body) {
      forall b: InnerFields | InnerSignBytes(b) == InnerSignBytes(a) ensures Meant(b.body) == Meant(a.body) {
        InnerSignBytesInjective(b, a);
        NoZeroIsMeant(a.body, b.body);
      }
    } else {
      var body := ZeroHasDouble(a.body);
      var b := a.(body := body);
      InnerSignBytesInjective(b, a);
    }
  }

  /** Fractional numbers are not protected: these two bodies differ and sign the same bytes. */
  lemma FractionsCollide(kind: string, sender: string, ts: int, rh: Option<HeaderFields>)
    ensures var a := InnerFields(kind, Num(Float(0.5)), sender, ts, rh);
            var b := InnerFields(kind, Num(Float(0.25)), sender, ts, rh);
            a.body != b.body && InnerSignBytes(a) == InnerSignBytes(b)
  {
    var a := InnerFields(kind, Num(Float(0.5)), sender, ts, rh);
    var b := InnerFields(kind, Num(Float(0.25)), sender, ts, rh);
    InnerSignBytesInjective(a, b);
    assert WholeOf(Float(0.5)) == 0 && WholeOf(Float(0.25)) == 0;
  }
}
