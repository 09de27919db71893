/**
  Reverse geocoding: choosing a display name for a coordinate from the
  reverse-geocoding provider's reply. Two variants exist: the key-presence
  chain of v1.1/main.py and main.py, and the truthiness chain of v1.2/main2.py.
 */
module Geocoding {
  import opened Wrappers
  import opened Values

  /** The provider's `address` object: place-kind keys mapped to names. */
  type Address = map<string, string>

  /** The part of the decoded reply the code reads: the `address` member, if present. */
  datatype GeoDoc = GeoDoc(address: Option<Address>)

  /** Returned when the reply is a success but names no place (key-presence variant). */
  const NotFound: string := "Ort nicht gefunden"
  /** Returned for every non-success status (both variants). */
  const RequestFailed: string := "Fehler bei der Anfrage"
  /** Returned when the reply is a success but names no place (truthiness variant). */
  const Unknown: string := "Unbekannte Stadt"

  /** The keys the key-presence variant consults, in priority order. */
  const PresencePriority: seq<string> := ["city", "town", "village", "hamlet"]
  /** The keys the truthiness variant consults, in priority order: no hamlet. */
  const TruthyPriority: seq<string> := ["city", "town", "village"]

  /** Reference definition: the value of the first key of `keys` that `a` has. */
  function FirstPresent(a: Address, keys: seq<string>): (r: Option<string>)
    ensures r.Some? <==> exists i | 0 <= i < |keys| :: keys[i] in a
    ensures forall i | 0 <= i < |keys| && keys[i] in a ::
      (forall j | 0 <= j < i :: keys[j] !in a) ==> r == Some(a[keys[i]])
  {
    if |keys| == 0 then None
    else if keys[0] in a then Some(a[keys[0]])
    else FirstPresent(a, keys[1..])
  }

  /** Reference definition: the value of the first key of `keys` that `a` maps to a non-empty name. */
  function FirstNonEmpty(a: Address, keys: seq<string>): (r: Option<string>)
    ensures r.Some? <==> exists i | 0 <= i < |keys| :: keys[i] in a && a[keys[i]] != ""
    ensures forall i | 0 <= i < |keys| && keys[i] in a && a[keys[i]] != "" ::
      (forall j | 0 <= j < i :: keys[j] !in a || a[keys[j]] == "") ==> r == Some(a[keys[i]])
    ensures r.Some? ==> r.value != ""
  {
    if |keys| == 0 then None
    else if keys[0] in a && a[keys[0]] != "" then Some(a[keys[0]])
    else FirstNonEmpty(a, keys[1..])
  }

  /** `FirstPresent` over `PresencePriority`, one key at a time. */
  lemma UnfoldPresence(a: Address)
    ensures FirstPresent(a, PresencePriority)
         == if "city" in a then Some(a["city"]) else if "town" in a then Some(a["town"])
            else if "village" in a then Some(a["village"]) else if "hamlet" in a then Some(a["hamlet"])
            else None
  {
    var k0 := PresencePriority;
    var k1, k2, k3 := k0[1..], k0[2..], k0[3..];
    assert k1[1..] == k2 && k2[1..] == k3 && k3[1..] == [];
    assert k0[0] == "city" && k1[0] == "town" && k2[0] == "village" && k3[0] == "hamlet";
    assert FirstPresent(a, k3) == if "hamlet" in a then Some(a["hamlet"]) else None;
    assert FirstPresent(a, k2) == if "village" in a then Some(a["village"]) else FirstPresent(a, k3);
    assert FirstPresent(a, k1) == if "town" in a then Some(a["town"]) else FirstPresent(a, k2);
  }

  /** `FirstNonEmpty` over `TruthyPriority`, one key at a time. */
  lemma UnfoldTruthy(a: Address)
    ensures FirstNonEmpty(a, TruthyPriority)
         == if "city" in a && a["city"] != "" then Some(a["city"])
            else if "town" in a && a["town"] != "" then Some(a["town"])
            else if "village" in a && a["village"] != "" then Some(a["village"])
            else None
  {
    var k0 := TruthyPriority;
    var k1, k2 := k0[1..], k0[2..];
    assert k1[1..] == k2 && k2[1..] == [];
    assert k0[0] == "city" && k1[0] == "town" && k2[0] == "village";
    assert FirstNonEmpty(a, k2) == if "village" in a && a["village"] != "" then Some(a["village"]) else None;
    assert FirstNonEmpty(a, k1) == if "town" in a && a["town"] != "" then Some(a["town"]) else FirstNonEmpty(a, k2);
  }

  /**
    `get_location_name` of v1.1/main.py and main.py: on a success status the
    first of city, town, village, hamlet whose KEY is present (so an empty
    name is returned as it is), else `NotFound`; any other status gives
    `RequestFailed`. A success whose body is not JSON raises ValueError.
   */
  function LocationName(r: Reply<GeoDoc>): (name: Try<string>)
    ensures r.status != HttpOk ==> name == Success(RequestFailed)
    ensures r.status == HttpOk && r.body.None? ==> name == Failure(ValueError)
    ensures r.status == HttpOk && r.body.Some? ==>
      name == Success(FirstPresent(r.body.value.address.GetOr(map[]), PresencePriority).GetOr(NotFound))
  {
    if r.status == HttpOk then
      match r.body
      case None => Failure(ValueError)
      case Some(doc) =>
        match doc.address
        case None => Success(NotFound)
        case Some(address) =>
          UnfoldPresence(address);
          if "city" in address then Success(address["city"])
          else if "town" in address then Success(address["town"])
          else if "village" in address then Success(address["village"])
          else if "hamlet" in address then Success(address["hamlet"])
          else Success(NotFound)
    else
      Success(RequestFailed)
  }

  /**
    `get_location_name` of v1.2/main2.py: on a success status the first
    NON-EMPTY name among city, town, village (hamlet is never consulted), else
    `Unknown`; any other status gives `RequestFailed`. A success whose body is
    not JSON raises ValueError.
   */
  function LocationNameTruthy(r: Reply<GeoDoc>): (name: Try<string>)
    ensures r.status != HttpOk ==> name == Success(RequestFailed)
    ensures r.status == HttpOk && r.body.None? ==> name == Failure(ValueError)
    ensures r.status == HttpOk && r.body.Some? ==>
      name == Success(FirstNonEmpty(r.body.value.address.GetOr(map[]), TruthyPriority).GetOr(Unknown))
    ensures name.Success? ==> name.value != ""
  {
    if r.status == HttpOk then
      match r.body
      case None => Failure(ValueError)
      case Some(doc) =>
        var address := doc.address.GetOr(map[]);
        UnfoldTruthy(address);
        var city := if "city" in address then address["city"] else "";
        var town := if "town" in address then address["town"] else "";
        var village := if "village" in address then address["village"] else "";
        Success(if city != "" then city else if town != "" then town
                else if village != "" then village else Unknown)
    else
      Success(RequestFailed)
  }

  /**
    The two variants name a place alike whenever the address has a city, town
    or village and every such name it has is non-empty; they differ only on
    empty names, on hamlets, and in their fallback text.
   */
  lemma VariantsAgreeOnNamedPlaces(r: Reply<GeoDoc>, a: Address)
    requires r.status == HttpOk && r.body == Some(GeoDoc(Some(a)))
    requires exists i | 0 <= i < |TruthyPriority| :: TruthyPriority[i] in a
    requires forall i | 0 <= i < |TruthyPriority| :: TruthyPriority[i] in a ==> a[TruthyPriority[i]] != ""
    ensures LocationName(r) == LocationNameTruthy(r)
  {
    UnfoldPresence(a);
    UnfoldTruthy(a);
    assert TruthyPriority[0] == "city" && TruthyPriority[1] == "town" && TruthyPriority[2] == "village";
  }
}
