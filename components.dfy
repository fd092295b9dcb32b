/**
  Development cards and noble tiles (splender/components.py): immutable value
  records with a dictionary form. A datatype constructor stores its arguments
  in the fields of the same names, as `Card.__init__` and `Noble.__init__` do.
*/
module Components {
  import opened Wrappers
  import opened Gems
  import opened Values

  /** A development card: its tier (1-3), the colour it discounts, its points and its price. */
  datatype Card = Card(id: string, tier: int, bonus: GemColor, points: int, cost: map<GemColor, int>)

  /** A noble tile: its points and the bonus count it needs per colour. */
  datatype Noble = Noble(id: string, points: int, requirements: map<Color, int>)

  const CardKeys: set<string> := {"id", "tier", "bonus", "points", "cost"}
  const NobleKeys: set<string> := {"id", "points", "requirements"}

  function CardToDict(c: Card): (v: Value)
    ensures v.VDict? && v.fields.Keys == CardKeys
  {
    VDict(map["id" := VStr(c.id), "tier" := VInt(c.tier), "bonus" := VStr(Name(c.bonus)),
              "points" := VInt(c.points), "cost" := EncodeCounts(c.cost)])
  }

  /** Keeps the gem colours of a decoded dictionary, refusing one that prices in gold. */
  function GemCounts(m: map<Color, int>, key: string): (r: Result<map<GemColor, int>, DecodeError>)
    ensures r.Success? <==> Gold !in m
    ensures r.Success? ==> r.value == m
  {
    if Gold in m then Failure(UnknownColor(key)) else Success(map g: GemColor | g in m :: m[g])
  }

  function GemColorField(v: Value, key: string): Result<GemColor, DecodeError> {
    var name :- StrField(v, key);
    var c := Parse(name);
    if c.None? || c.value == Gold then Failure(UnknownColor(key)) else Success(c.value)
  }

  /** `Card.from_dict`: reads the five keys in constructor order; a missing one is a KeyError. */
  function CardFromDict(v: Value): (r: Result<Card, DecodeError>)
    ensures r.Success? ==> v.VDict? && CardKeys <= v.fields.Keys
    ensures r.Success? ==>
      v.fields["id"] == VStr(r.value.id) && v.fields["tier"] == VInt(r.value.tier) &&
      v.fields["bonus"] == VStr(Name(r.value.bonus)) && v.fields["points"] == VInt(r.value.points)
    ensures r.Success? ==> v.fields["cost"].VDict? && forall g: GemColor ::
      (g in r.value.cost <==> Name(g) in v.fields["cost"].fields) &&
      (g in r.value.cost ==> v.fields["cost"].fields[Name(g)] == VInt(r.value.cost[g]))
    ensures v.VDict? && "id" !in v.fields ==> r == Failure(MissingKey("id"))
  {
    var id :- StrField(v, "id");
    var tier :- IntField(v, "tier");
    var bonus :- GemColorField(v, "bonus");
    var points :- IntField(v, "points");
    var costValue :- Field(v, "cost");
    var costs :- DecodeCounts(costValue, "cost");
    var cost :- GemCounts(costs, "cost");
    Success(Card(id, tier, bonus, points, cost))
  }

  lemma CardRoundTrip(c: Card)
    ensures CardFromDict(CardToDict(c)) == Success(c)
  {
    var v := CardToDict(c);
    assert StrField(v, "id") == Success(c.id);
    assert IntField(v, "tier") == Success(c.tier);
    ParseName(c.bonus);
    assert GemColorField(v, "bonus") == Success(c.bonus);
    assert IntField(v, "points") == Success(c.points);
    CountsRoundTrip(c.cost, "cost");
    assert GemCounts(c.cost, "cost") == Success(c.cost);
  }

  function NobleToDict(n: Noble): (v: Value)
    ensures v.VDict? && v.fields.Keys == NobleKeys
  {
    VDict(map["id" := VStr(n.id), "points" := VInt(n.points), "requirements" := EncodeCounts(n.requirements)])
  }

  /** `Noble.from_dict`. */
  function NobleFromDict(v: Value): (r: Result<Noble, DecodeError>)
    ensures r.Success? ==> v.VDict? && NobleKeys <= v.fields.Keys
    ensures r.Success? ==> v.fields["id"] == VStr(r.value.id) && v.fields["points"] == VInt(r.value.points)
    ensures r.Success? ==> v.fields["requirements"].VDict? && forall c: Color ::
      (c in r.value.requirements <==> Name(c) in v.fields["requirements"].fields) &&
      (c in r.value.requirements ==> v.fields["requirements"].fields[Name(c)] == VInt(r.value.requirements[c]))
    ensures v.VDict? && "id" !in v.fields ==> r == Failure(MissingKey("id"))
  {
    var id :- StrField(v, "id");
    var points :- IntField(v, "points");
    var reqValue :- Field(v, "requirements");
    var requirements :- DecodeCounts(reqValue, "requirements");
    Success(Noble(id, points, requirements))
  }

  lemma NobleRoundTrip(n: Noble)
    ensures NobleFromDict(NobleToDict(n)) == Success(n)
  {
    CountsRoundTrip(n.requirements, "requirements");
  }

  /** `[c.to_dict() for c in cards]`. */
  function CardsToList(cs: seq<Card>): (vs: seq<Value>)
    ensures |vs| == |cs| && forall i :: 0 <= i < |cs| ==> vs[i] == CardToDict(cs[i])
  {
    if cs == [] then [] else [CardToDict(cs[0])] + CardsToList(cs[1..])
  }

  /** `[Card.from_dict(c) for c in data]`: fails at the first entry that fails. */
  function CardsFromList(vs: seq<Value>): (r: Result<seq<Card>, DecodeError>)
    ensures r.Success? <==> forall i :: 0 <= i < |vs| ==> CardFromDict(vs[i]).Success?
    ensures r.Success? ==> |r.value| == |vs| && forall i :: 0 <= i < |vs| ==> CardFromDict(vs[i]) == Success(r.value[i])
  {
    if vs == [] then Success([])
    else
      var c :- CardFromDict(vs[0]);
      var rest :- CardsFromList(vs[1..]);
      Success([c] + rest)
  }

  lemma {:induction false} CardsRoundTrip(cs: seq<Card>)
    ensures CardsFromList(CardsToList(cs)) == Success(cs)
  {
    if cs != [] {
      var vs := CardsToList(cs);
      CardRoundTrip(cs[0]);
      assert CardFromDict(vs[0]) == Success(cs[0]);
      CardsRoundTrip(cs[1..]);
      assert vs[1..] == CardsToList(cs[1..]);
      assert [cs[0]] + cs[1..] == cs;
    }
  }

  function NoblesToList(ns: seq<Noble>): (vs: seq<Value>)
    ensures |vs| == |ns| && forall i :: 0 <= i < |ns| ==> vs[i] == NobleToDict(ns[i])
  {
    if ns == [] then [] else [NobleToDict(ns[0])] + NoblesToList(ns[1..])
  }

  /** `[Noble.from_dict(n) for n in data]`: fails at the first entry that fails. */
  function NoblesFromList(vs: seq<Value>): (r: Result<seq<Noble>, DecodeError>)
    ensures r.Success? <==> forall i :: 0 <= i < |vs| ==> NobleFromDict(vs[i]).Success?
    ensures r.Success? ==> |r.value| == |vs| && forall i :: 0 <= i < |vs| ==> NobleFromDict(vs[i]) == Success(r.value[i])
  {
    if vs == [] then Success([])
    else
      var n :- NobleFromDict(vs[0]);
      var rest :- NoblesFromList(vs[1..]);
      Success([n] + rest)
  }

  lemma {:induction false} NoblesRoundTrip(ns: seq<Noble>)
    ensures NoblesFromList(NoblesToList(ns)) == Success(ns)
  {
    if ns != [] {
      var vs := NoblesToList(ns);
      NobleRoundTrip(ns[0]);
      assert NobleFromDict(vs[0]) == Success(ns[0]);
      NoblesRoundTrip(ns[1..]);
      assert vs[1..] == NoblesToList(ns[1..]);
      assert [ns[0]] + ns[1..] == ns;
    }
  }

  /** `next(c for c in cards if c.id == card_id)`: the position of the first card with that id, if any. */
  function FindById(cs: seq<Card>, id: string): (r: Option<nat>)
    ensures r.Some? ==> r.value < |cs| && cs[r.value].id == id
    ensures r.Some? ==> forall j :: 0 <= j < r.value ==> cs[j].id != id
    ensures r.None? ==> forall j :: 0 <= j < |cs| ==> cs[j].id != id
  {
    if cs == [] then None
    else if cs[0].id == id then Some(0)
    else match FindById(cs[1..], id)
      case None => None
      case Some(k) => Some(k + 1)
  }

  /** `cards.remove(cards[k])` once `k` is the first position holding that card. */
  function RemoveAt<T>(s: seq<T>, k: nat): (r: seq<T>)
    requires k < |s|
    ensures |r| == |s| - 1
    ensures multiset(r) + multiset{s[k]} == multiset(s)
  {
    assert s == s[..k] + [s[k]] + s[k + 1..];
    s[..k] + s[k + 1..]
  }

  /** `list.index(x)` without the error: the first position holding `x`, if any. */
  function IndexOf<T(==)>(s: seq<T>, x: T): (r: Option<nat>)
    ensures r.Some? ==> r.value < |s| && s[r.value] == x && forall j :: 0 <= j < r.value ==> s[j] != x
    ensures r.None? <==> x !in s
  {
    if s == [] then None
    else if s[0] == x then Some(0)
    else match IndexOf(s[1..], x)
      case None => None
      case Some(k) => Some(k + 1)
  }

  /** `list.remove(x)`: drops the first element equal to `x`, which must be present (Python raises ValueError otherwise). */
  function RemoveFirst<T(==)>(s: seq<T>, x: T): (r: seq<T>)
    requires x in s
    ensures |r| == |s| - 1 && multiset(r) + multiset{x} == multiset(s)
  {
    var k := IndexOf(s, x).value;
    RemoveAt(s, k)
  }

  /** Removing the value at position `k`, when no earlier element equals it, removes position `k`. */
  lemma RemoveFirstAt<T>(s: seq<T>, k: nat)
    requires k < |s| && forall j :: 0 <= j < k ==> s[j] != s[k]
    ensures RemoveFirst(s, s[k]) == RemoveAt(s, k)
  {
    var i := IndexOf(s, s[k]);
    assert i.Some? && i.value <= k;
  }
}
