/**
 * Values shared by the authorization client and the stream decoder:
 * optional and fallible results, bytes, pre-parsed URLs, and the ordered
 * key/value lists that the client builds its query parameters in.
 */
module Common {

  /** Python's `x | None`. */
  datatype Option<+T> = None | Some(value: T)

  /** A value or the exception that the Python code raises instead. */
  datatype Result<+T, +E> = Ok(value: T) | Err(error: E)

  type byte = x: int | 0 <= x < 256

  /**
   * A URL as pydantic or `urlparse` has already split it: scheme, host,
   * optional explicit port and path (the empty string when there is none).
   */
  datatype Url = Url(scheme: string, host: string, port: Option<int>, path: string)

  /** Python truthiness of an optional string: `None` and `""` are falsy. */
  predicate Truthy(s: Option<string>)
  {
    s.Some? && s.value != ""
  }

  /** One value of a parameter dictionary as the Python code stores it. */
  datatype Value = Text(text: string) | Bytes(bytes: seq<byte>) | Link(url: Url) | Null

  /** The query parameter names that the OAuth requests use. */
  datatype Key =
    | ResponseType | ClientId | State | RedirectUri | ClientSecret | CodeChallenge | CodeChallengeMethod
    | Grant | AuthCode | CodeVerifier | RefreshToken

  /** The name of a parameter as it is sent. */
  function KeyName(k: Key): (s: string)
  {
    match k
    case ResponseType => "response_type"
    case ClientId => "client_id"
    case State => "state"
    case RedirectUri => "redirect_uri"
    case ClientSecret => "client_secret"
    case CodeChallenge => "code_challenge"
    case CodeChallengeMethod => "code_challenge_method"
    case Grant => "grant_type"
    case AuthCode => "code"
    case CodeVerifier => "code_verifier"
    case RefreshToken => "refresh_token"
  }

  /** Different parameters are sent under different names. */
  lemma KeyNameInjective(k1: Key, k2: Key)
    requires k1 != k2
    ensures KeyName(k1) != KeyName(k2)
  {
  }

  /** A Python dict of query parameters, as its items in insertion order. */
  type Params<K> = seq<(K, Value)>

  /** `k in p` */
  predicate HasKey<K(==)>(p: Params<K>, k: K)
  {
    exists i :: 0 <= i < |p| && p[i].0 == k
  }

  /** `p.get(k)` */
  function Lookup<K(==)>(p: Params<K>, k: K): (r: Option<Value>)
    ensures r.Some? <==> HasKey(p, k)
  {
    if p == [] then None else if p[0].0 == k then Some(p[0].1) else Lookup(p[1..], k)
  }

  /**
   * `p[k] = v`: overwrites the value of an existing key where it stands, or
   * appends a new key at the end of the order.
   */
  function Set<K(==)>(p: Params<K>, k: K, v: Value): (r: Params<K>)
    ensures Lookup(r, k) == Some(v)
  {
    if p == [] then [(k, v)]
    else if p[0].0 == k then [(k, v)] + p[1..]
    else [p[0]] + Set(p[1..], k, v)
  }

  /** `p.update(q)`: sets the items of `q` one after another. */
  function Update<K(==)>(p: Params<K>, q: Params<K>): (r: Params<K>)
    decreases |q|
  {
    if q == [] then p else Update(Set(p, q[0].0, q[0].1), q[1..])
  }

  /** None of the keys of `q` is in `p`, and no key occurs twice in `q`. */
  predicate FreshKeys<K(==)>(p: Params<K>, q: Params<K>)
  {
    && (forall i :: 0 <= i < |q| ==> !HasKey(p, q[i].0))
    && (forall i, j :: 0 <= i < j < |q| ==> q[i].0 != q[j].0)
  }

  /** Every other key keeps its value when `k` is set. */
  lemma {:induction false} SetOthers<K>(p: Params<K>, k: K, v: Value, k': K)
    requires k' != k
    ensures Lookup(Set(p, k, v), k') == Lookup(p, k')
    decreases |p|
  {
    if p != [] && p[0].0 != k {
      SetOthers(p[1..], k, v, k');
      assert Set(p, k, v)[1..] == Set(p[1..], k, v);
    }
    else if p != [] {
      assert Set(p, k, v)[1..] == p[1..];
    }
  }

  /** Setting a key that is not there yet appends it. */
  lemma {:induction false} SetAppends<K>(p: Params<K>, k: K, v: Value)
    requires !HasKey(p, k)
    ensures Set(p, k, v) == p + [(k, v)]
    decreases |p|
  {
    if p != [] {
      SetAppends(p[1..], k, v);
      assert [p[0]] + (p[1..] + [(k, v)]) == p + [(k, v)];
    }
  }

  /** Moving the first item of `q` to the end of `p` keeps the keys of `q` fresh. */
  lemma FreshKeysStep<K>(p: Params<K>, q: Params<K>)
    requires q != [] && FreshKeys(p, q)
    ensures FreshKeys(p + [q[0]], q[1..])
  {
    forall i | 0 <= i < |q[1..]|
      ensures !HasKey(p + [q[0]], q[1..][i].0)
    {
      assert q[1..][i] == q[i + 1];
      forall j | 0 <= j < |p + [q[0]]|
        ensures (p + [q[0]])[j].0 != q[i + 1].0
      {
        if j < |p| {
          assert (p + [q[0]])[j] == p[j];
        }
      }
    }
  }

  /** Moving the first item of `q` onto the end of `p` leaves the concatenation as it was. */
  lemma MoveFirst<K>(p: Params<K>, q: Params<K>)
    requires q != []
    ensures p + [q[0]] + q[1..] == p + q
  {
    assert [q[0]] + q[1..] == q;
  }

  /** Updating with a first item whose key is new appends that item and goes on with the rest. */
  lemma UpdateStep<K>(p: Params<K>, q: Params<K>)
    requires q != [] && !HasKey(p, q[0].0)
    ensures Update(p, q) == Update(p + [q[0]], q[1..])
  {
    SetAppends(p, q[0].0, q[0].1);
  }

  /** `p.update(q)` with keys all new to `p` appends the items of `q` in their order. */
  lemma {:induction false} UpdateAppends<K>(p: Params<K>, q: Params<K>)
    requires FreshKeys(p, q)
    ensures Update(p, q) == p + q
    decreases |q|
  {
    if q != [] {
      UpdateStep(p, q);
      FreshKeysStep(p, q);
      UpdateAppends(p + [q[0]], q[1..]);
      MoveFirst(p, q);
    }
  }

  /** `{}` updated with `b` and then with `e`, all keys distinct, holds the items of `b` and then those of `e`. */
  lemma UpdateTwice<K>(b: Params<K>, e: Params<K>)
    requires FreshKeys([], b) && FreshKeys(b, e)
    ensures Update(Update([], b), e) == b + e
  {
    UpdateAppends([], b);
    assert [] + b == b;
    UpdateAppends(b, e);
  }

  /** `list(p.keys())` */
  function Keys<K>(p: Params<K>): seq<K>
  {
    seq(|p|, i requires 0 <= i < |p| => p[i].0)
  }

  /** The value of the first item with a given key is what a lookup of that key finds. */
  lemma {:induction false} LookupAt<K>(p: Params<K>, i: nat)
    requires i < |p| && forall j :: 0 <= j < i ==> p[j].0 != p[i].0
    ensures Lookup(p, p[i].0) == Some(p[i].1)
    decreases i
  {
    if i > 0 {
      assert p[1..][i - 1] == p[i];
      LookupAt(p[1..], i - 1);
    }
  }
}
