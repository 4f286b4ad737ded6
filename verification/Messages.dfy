/**
 * The wire message schema: requests, responses and events, written to and
 * rebuilt from the value tree that MessagePack carries.
 */
module Messages {
  import opened Prelude

  /** A decoded MessagePack value. */
  datatype Value =
    | Nil
    | Bool(b: bool)
    | Int(i: int)
    | Float(bits: bv64)  // IEEE 754 double
    | Str(s: string)
    | Bin(bytes: seq<byte>)
    | Array(items: seq<Value>)
    | Map(entries: map<Value, Value>)
  {
    /** Python truthiness, which `obj.get("args") or {}` consults. */
    predicate Truthy() {
      match this
      case Nil => false
      case Bool(b) => b
      case Int(i) => i != 0
      case Float(bits) => bits != 0 && bits != 0x8000_0000_0000_0000  // neither 0.0 nor -0.0
      case Str(s) => s != ""
      case Bin(b) => b != []
      case Array(items) => items != []
      case Map(m) => m != map[]
    }
  }

  datatype Status = OK | ERROR

  datatype Message =
    | Request(id: Value, domain: Value, op: Value, args: Value)
    | Response(id: Value, status: Status, data: Value, error: Value)
    | Event(subscriptionId: Value, domain: Value, op: Value, data: Value)

  datatype FrameError =
    | NotAMap
    | UnknownType
    | MissingField(name: string)
    | BadStatus
    | BadHeader
    | TooLarge
    | BadPayload

  const EMPTY_MAP: Value := Map(map[])

  function StatusValue(s: Status): Value {
    match s
    case OK => Str("ok")
    case ERROR => Str("error")
  }

  function ToDict(m: Message): Value {
    match m
    case Request(id, domain, op, args) =>
      Map(map[Str("type") := Str("request"), Str("id") := id, Str("domain") := domain,
              Str("op") := op, Str("args") := args])
    case Response(id, status, data, error) =>
      Map(map[Str("type") := Str("response"), Str("id") := id, Str("status") := StatusValue(status),
              Str("data") := data, Str("error") := error])
    case Event(sid, domain, op, data) =>
      Map(map[Str("type") := Str("event"), Str("subscription_id") := sid, Str("domain") := domain,
              Str("op") := op, Str("data") := data])
  }

  /** `obj.get(name)`. */
  function Get(obj: map<Value, Value>, name: string): Value {
    if Str(name) in obj then obj[Str(name)] else Nil
  }

  /** The first of `names` that `obj` lacks: the KeyError Python would raise. */
  function FirstMissing(obj: map<Value, Value>, names: seq<string>): Option<string> {
    if names == [] then None
    else if Str(names[0]) !in obj then Some(names[0])
    else FirstMissing(obj, names[1..])
  }

  function FromDict(v: Value): Result<Message, FrameError> {
    if !v.Map? then Err(NotAMap)
    else
      var obj := v.entries;
      match Get(obj, "type")
      case Str("request") =>
        (match FirstMissing(obj, ["id", "domain", "op"])
         case Some(name) => Err(MissingField(name))
         case None =>
           var args := Get(obj, "args");
           Ok(Request(Get(obj, "id"), Get(obj, "domain"), Get(obj, "op"),
                      if args.Truthy() then args else EMPTY_MAP)))
      case Str("response") =>
        (match FirstMissing(obj, ["id", "status"])
         case Some(name) => Err(MissingField(name))
         case None =>
           var status := Get(obj, "status");
           if status == Str("ok") then
             Ok(Response(Get(obj, "id"), OK, Get(obj, "data"), Get(obj, "error")))
           else if status == Str("error") then
             Ok(Response(Get(obj, "id"), ERROR, Get(obj, "data"), Get(obj, "error")))
           else Err(BadStatus))
      case Str("event") =>
        (match FirstMissing(obj, ["subscription_id", "domain", "op"])
         case Some(name) => Err(MissingField(name))
         case None =>
           Ok(Event(Get(obj, "subscription_id"), Get(obj, "domain"), Get(obj, "op"), Get(obj, "data"))))
      case _ => Err(UnknownType)
  }

  /** What survives a trip over the wire: `args` that are truthy or the empty map. */
  predicate Normal(m: Message) {
    m.Request? ==> m.args.Truthy() || m.args == EMPTY_MAP
  }

  /** The message a peer rebuilds: falsy arguments have become the empty map. */
  function Normalised(m: Message): Message {
    if Normal(m) then m else m.(args := EMPTY_MAP)
  }

  lemma RebuildNormalises(m: Message)
    ensures FromDict(ToDict(m)) == Ok(Normalised(m))
  {
    var obj := ToDict(m).entries;
    match m
    case Request(_, _, _, _) =>
      assert FirstMissing(obj, ["id", "domain", "op"]) == FirstMissing(obj, ["domain", "op"]) == FirstMissing(obj, ["op"]);
      assert FirstMissing(obj, ["op"]) == FirstMissing(obj, []);
    case Response(_, _, _, _) =>
      assert FirstMissing(obj, ["id", "status"]) == FirstMissing(obj, ["status"]) == FirstMissing(obj, []);
    case Event(_, _, _, _) =>
      assert FirstMissing(obj, ["subscription_id", "domain", "op"]) == FirstMissing(obj, ["domain", "op"]) == FirstMissing(obj, ["op"]);
      assert FirstMissing(obj, ["op"]) == FirstMissing(obj, []);
  }

  /**
   * Round trip, exactly: a message is rebuilt unchanged iff its arguments are
   * truthy or already `{}`.  A request built with `args=None` is the
   * counterexample to the unconditional law.
   */
  lemma MessageRoundTrip(m: Message)
    ensures FromDict(ToDict(m)) == Ok(m) <==> Normal(m)
    ensures Normal(m) <==> !(m.Request? && IsFalsy(m.args) && m.args != Map(map[]))
  {
    RebuildNormalises(m);
  }

  /** The values that Python takes for false: none, false, zero of either kind and sign, and everything empty. */
  predicate IsFalsy(v: Value) {
    || v == Nil || v == Bool(false) || v == Int(0) || v == Float(0) || v == Float(0x8000_0000_0000_0000)
    || v == Str("") || v == Bin([]) || v == Array([]) || v == Map(map[])
  }

  /** Parse, print, parse: whatever parses is already in normal form, so it is a fixed point. */
  lemma ParsePrintParse(v: Value)
    requires FromDict(v).Ok?
    ensures Normal(FromDict(v).value)
    ensures FromDict(ToDict(FromDict(v).value)) == FromDict(v)
  {
    RebuildNormalises(FromDict(v).value);
  }

  // ---- when a decoded value is a message, said without the parser ---------

  predicate Has(obj: map<Value, Value>, names: set<string>) {
    forall n :: n in names ==> Str(n) in obj
  }

  predicate WellFormed(v: Value) {
    && v.Map?
    && Str("type") in v.entries
    && var t := v.entries[Str("type")];
       || (t == Str("request") && Has(v.entries, {"id", "domain", "op"}))
       || (t == Str("response") && Has(v.entries, {"id", "status"})
           && v.entries[Str("status")] in {Str("ok"), Str("error")})
       || (t == Str("event") && Has(v.entries, {"subscription_id", "domain", "op"}))
  }

  lemma {:induction false} FirstMissingIsFirst(obj: map<Value, Value>, names: seq<string>)
    ensures var r := FirstMissing(obj, names);
      && (r.None? <==> forall n :: n in names ==> Str(n) in obj)
      && (r.Some? ==> exists k :: 0 <= k < |names| && names[k] == r.value && Str(r.value) !in obj
                                 && forall j :: 0 <= j < k ==> Str(names[j]) in obj)
  {
    if names != [] {
      var rest := names[1..];
      FirstMissingIsFirst(obj, rest);
      assert forall n :: n in names <==> n == names[0] || n in rest;
      var r := FirstMissing(obj, names);
      if Str(names[0]) in obj && r.Some? {
        var k :| 0 <= k < |rest| && rest[k] == r.value && Str(r.value) !in obj
                 && forall j :: 0 <= j < k ==> Str(rest[j]) in obj;
        assert names[k + 1] == r.value;
        assert forall j :: 0 <= j < k + 1 ==> Str(names[j]) in obj by {
          forall j | 0 <= j < k + 1 ensures Str(names[j]) in obj {
            if j > 0 { assert names[j] == rest[j - 1]; }
          }
        }
      }
    }
  }

  /** The fields a message of this type needs, in the order they are asked for. */
  function Required(kind: string): seq<string> {
    if kind == "response" then ["id", "status"]
    else if kind == "event" then ["subscription_id", "domain", "op"]
    else ["id", "domain", "op"]
  }

  /** Which frame error a malformed value gives: no map, an unknown type, the first missing field, or an unknown status. */
  lemma ParserErrors(v: Value)
    ensures FromDict(v) == Err(NotAMap) <==> !v.Map?
    ensures FromDict(v) == Err(UnknownType) <==>
      v.Map? && Get(v.entries, "type") !in {Str("request"), Str("response"), Str("event")}
    ensures forall name :: FromDict(v) == Err(MissingField(name)) <==>
      v.Map? && exists kind :: kind in {"request", "response", "event"} && Get(v.entries, "type") == Str(kind)
                               && FirstMissing(v.entries, Required(kind)) == Some(name)
    ensures FromDict(v) == Err(BadStatus) <==>
      && v.Map? && Get(v.entries, "type") == Str("response") && FirstMissing(v.entries, ["id", "status"]).None?
      && Get(v.entries, "status") !in {Str("ok"), Str("error")}
  {
  }

  /**
   * The parser is total: a well-formed value yields a message that carries the
   * value's own fields, everything else a frame error.
   */
  lemma ParserTotal(v: Value)
    ensures FromDict(v).Ok? <==> WellFormed(v)
    ensures FromDict(v).Ok? ==>
      var m := FromDict(v).value;
      var obj := v.entries;
      match m
      case Request(id, domain, op, args) =>
        obj[Str("type")] == Str("request") && id == obj[Str("id")] && domain == obj[Str("domain")] && op == obj[Str("op")]
        && (Get(obj, "args").Truthy() ==> args == Get(obj, "args"))
      case Response(id, status, data, error) =>
        obj[Str("type")] == Str("response") && id == obj[Str("id")] && (status == OK <==> obj[Str("status")] == Str("ok"))
        && data == Get(obj, "data") && error == Get(obj, "error")
      case Event(sid, domain, op, data) =>
        obj[Str("type")] == Str("event") && sid == obj[Str("subscription_id")] && domain == obj[Str("domain")]
        && op == obj[Str("op")] && data == Get(obj, "data")
  {
    if v.Map? {
      FirstMissingIsFirst(v.entries, ["id", "domain", "op"]);
      FirstMissingIsFirst(v.entries, ["id", "status"]);
      FirstMissingIsFirst(v.entries, ["subscription_id", "domain", "op"]);
      assert "id" in ["id", "domain", "op"] && "domain" in ["id", "domain", "op"] && "op" in ["id", "domain", "op"];
      assert "id" in ["id", "status"] && "status" in ["id", "status"];
      assert "subscription_id" in ["subscription_id", "domain", "op"]
          && "domain" in ["subscription_id", "domain", "op"] && "op" in ["subscription_id", "domain", "op"];
    }
  }
}
