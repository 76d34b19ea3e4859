/** src/core/mixins.py: `JSONRepresentationMixin.to_json`, which keeps the
    attributes of an instance whose names do not start with `_`. The
    instance dictionary is a map from attribute name to value. */
module Mixins {

  /** Attribute names that `to_json` drops (SQLAlchemy's `_sa_instance_state`
      and the like). The empty name does not start with `_`. */
  predicate IsPrivate(column: string)
  {
    |column| > 0 && column[0] == '_'
  }

  function ToJson<V>(attrs: map<string, V>): (json: map<string, V>)
    ensures forall c :: c in json <==> c in attrs && !IsPrivate(c)
    ensures forall c :: c in json ==> json[c] == attrs[c]
  {
    map c | c in attrs && !IsPrivate(c) :: attrs[c]
  }

  /** The output has no private key and is never larger than the input. */
  lemma ToJsonShrinks<V>(attrs: map<string, V>)
    ensures forall c :: c in ToJson(attrs) ==> !IsPrivate(c)
    ensures |ToJson(attrs)| <= |attrs|
  {
    var json := ToJson(attrs);
    assert json.Keys <= attrs.Keys;
    SubsetCardinality(json.Keys, attrs.Keys);
  }

  lemma {:induction false} SubsetCardinality<T>(a: set<T>, b: set<T>)
    requires a <= b
    ensures |a| <= |b|
  {
    if a != {} {
      var x :| x in a;
      SubsetCardinality(a - {x}, b - {x});
    }
  }

  /** Filtering an already filtered dictionary changes nothing. */
  lemma ToJsonIdempotent<V>(attrs: map<string, V>)
    ensures ToJson(ToJson(attrs)) == ToJson(attrs)
  {
  }

  /** Only the public part of the instance dictionary matters: two
      instances that agree on their public attributes give the same JSON. */
  lemma ToJsonIgnoresPrivate<V>(a: map<string, V>, b: map<string, V>)
    requires forall c :: !IsPrivate(c) ==> (c in a <==> c in b)
    requires forall c :: !IsPrivate(c) && c in a ==> a[c] == b[c]
    ensures ToJson(a) == ToJson(b)
  {
  }
}
