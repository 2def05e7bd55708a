/** `Client#initialize_options`: defaulting of the options hash. A Ruby hash
    keyed by symbols becomes a map keyed by the symbol's name; a missing key
    reads as `nil`. */
module Options {

  /** The Ruby values that can appear in the hash. `Object` stands for
      anything else, such as the event listener class. */
  datatype Value = Nil | Bool(b: bool) | Int(i: int) | Str(s: string) | Object(name: string)

  type Options = map<string, Value>

  /** `options[k]`. */
  function Get(h: Options, k: string): Value {
    if k in h then h[k] else Nil
  }

  /** Ruby truthiness: everything but `nil` and `false`. */
  predicate Truthy(v: Value) {
    v != Nil && v != Bool(false)
  }

  /** What `options[k] ||= d` leaves under `k`, stated independently of how
      the hash is updated. */
  function Defaulted(h: Options, k: string, d: Value): Value {
    if Truthy(Get(h, k)) then Get(h, k) else d
  }

  /** `options[k] ||= d`: assigns only when the current value is falsy. */
  function OrAssign(h: Options, k: string, d: Value): (r: Options)
    ensures Get(r, k) == Defaulted(h, k, d)
    ensures r.Keys == h.Keys + {k}
    ensures forall j :: j in h && j != k ==> r[j] == h[j]
  {
    if Truthy(Get(h, k)) then h else h[k := d]
  }

  const SoTimeout := "so_timeout"
  const ConnectionTimeout := "connection_timeout"
  const SocketBufferSize := "socket_buffer_size"
  const StaleConnectionCheck := "stale_connection_check"
  const TcpNoDelay := "tcp_nodelay"
  const UserAgent := "user_agent"

  /** The six `||=` lines, in source order. */
  const Defaults: seq<(string, Value)> := [
    (SoTimeout, Int(5000)),
    (ConnectionTimeout, Int(10000)),
    (SocketBufferSize, Int(8 * 1024)),
    (StaleConnectionCheck, Bool(false)),
    (TcpNoDelay, Bool(true)),
    (UserAgent, Str("JRubyHttpReactor"))
  ]

  ghost predicate DistinctKeys(ds: seq<(string, Value)>) {
    forall i, j :: 0 <= i < j < |ds| ==> ds[i].0 != ds[j].0
  }

  function KeysOf(ds: seq<(string, Value)>): set<string> {
    set i | 0 <= i < |ds| :: ds[i].0
  }

  function ApplyDefaults(h: Options, ds: seq<(string, Value)>): Options
    decreases |ds|
  {
    if ds == [] then h else ApplyDefaults(OrAssign(h, ds[0].0, ds[0].1), ds[1..])
  }

  /** Running distinct `||=` lines one after another defaults each key as if
      it were alone and leaves every other key as it was. */
  lemma {:induction false} ApplyDefaultsSpec(h: Options, ds: seq<(string, Value)>)
    requires DistinctKeys(ds)
    ensures forall i :: 0 <= i < |ds| ==> Get(ApplyDefaults(h, ds), ds[i].0) == Defaulted(h, ds[i].0, ds[i].1)
    ensures forall k :: k in h ==> k in ApplyDefaults(h, ds)
    ensures forall k :: (forall i :: 0 <= i < |ds| ==> ds[i].0 != k) ==> Get(ApplyDefaults(h, ds), k) == Get(h, k)
    ensures ApplyDefaults(h, ds).Keys == h.Keys + KeysOf(ds)
    decreases |ds|
  {
    if ds != [] {
      var h1 := OrAssign(h, ds[0].0, ds[0].1);
      var tail := ds[1..];
      ApplyDefaultsSpec(h1, tail);
      var r := ApplyDefaults(h1, tail);
      assert r == ApplyDefaults(h, ds);
      forall i | 0 <= i < |ds|
        ensures Get(r, ds[i].0) == Defaulted(h, ds[i].0, ds[i].1)
      {
        if i == 0 {
          assert forall j :: 0 <= j < |tail| ==> tail[j].0 == ds[j + 1].0;
          assert Get(r, ds[0].0) == Get(h1, ds[0].0);
        } else {
          assert tail[i - 1] == ds[i];
          assert Get(h1, ds[i].0) == Get(h, ds[i].0);
        }
      }
      assert KeysOf(ds) == {ds[0].0} + KeysOf(tail) by {
        forall k | k in KeysOf(ds)
          ensures k in {ds[0].0} + KeysOf(tail)
        {
          var i :| 0 <= i < |ds| && ds[i].0 == k;
          if i > 0 {
            assert tail[i - 1] == ds[i];
          }
        }
        forall k | k in KeysOf(tail)
          ensures k in KeysOf(ds)
        {
          var i :| 0 <= i < |tail| && tail[i].0 == k;
          assert ds[i + 1] == tail[i];
        }
      }
      forall k | forall i :: 0 <= i < |ds| ==> ds[i].0 != k
        ensures Get(r, k) == Get(h, k)
      {
        assert forall j :: 0 <= j < |tail| ==> tail[j] == ds[j + 1];
      }
    }
  }

  /** `initialize_options`: every default key present afterwards, holding the
      supplied value when that value is truthy and the default otherwise;
      every other key kept as supplied. */
  function InitializeOptions(h: Options): (r: Options)
    ensures forall i :: 0 <= i < |Defaults| ==> Get(r, Defaults[i].0) == Defaulted(h, Defaults[i].0, Defaults[i].1)
    ensures r.Keys == h.Keys + KeysOf(Defaults)
    ensures forall k :: (forall i :: 0 <= i < |Defaults| ==> Defaults[i].0 != k) ==> Get(r, k) == Get(h, k)
  {
    ApplyDefaultsSpec(h, Defaults);
    ApplyDefaults(h, Defaults)
  }

  /** The documented defaults, key by key. */
  lemma DefaultValues(h: Options)
    ensures Get(InitializeOptions(h), SoTimeout) == Defaulted(h, SoTimeout, Int(5000))
    ensures Get(InitializeOptions(h), ConnectionTimeout) == Defaulted(h, ConnectionTimeout, Int(10000))
    ensures Get(InitializeOptions(h), SocketBufferSize) == Defaulted(h, SocketBufferSize, Int(8192))
    ensures Get(InitializeOptions(h), StaleConnectionCheck) == Defaulted(h, StaleConnectionCheck, Bool(false))
    ensures Get(InitializeOptions(h), UserAgent) == Defaulted(h, UserAgent, Str("JRubyHttpReactor"))
  {
    var r := InitializeOptions(h);
    assert Defaults[0].0 == SoTimeout && Defaults[1].0 == ConnectionTimeout;
    assert Defaults[2].0 == SocketBufferSize && Defaults[3].0 == StaleConnectionCheck;
    assert Defaults[5].0 == UserAgent;
  }

  /** Because `||=` treats a supplied `false` like a missing value,
      `tcp_nodelay` cannot be switched off: it always ends up truthy, and
      `true` whenever it was missing or supplied as a boolean. */
  lemma TcpNoDelayAlwaysOn(h: Options)
    ensures Truthy(Get(InitializeOptions(h), TcpNoDelay))
    ensures Get(h, TcpNoDelay).Nil? || Get(h, TcpNoDelay).Bool? ==>
              Get(InitializeOptions(h), TcpNoDelay) == Bool(true)
  {
    assert Defaults[4].0 == TcpNoDelay;
  }

  /** A supplied `stale_connection_check` survives only when it is truthy;
      a supplied `false` and a missing key both end up `false`. */
  lemma StaleCheckKeptIffTruthyOrFalse(h: Options)
    ensures Get(InitializeOptions(h), StaleConnectionCheck) == Get(h, StaleConnectionCheck)
        <==> Truthy(Get(h, StaleConnectionCheck)) || Get(h, StaleConnectionCheck) == Bool(false)
  {
    DefaultValues(h);
  }

  /** Defaulting twice is defaulting once. */
  lemma {:induction false} InitializeOptionsIdempotent(h: Options)
    ensures InitializeOptions(InitializeOptions(h)) == InitializeOptions(h)
  {
    var r := InitializeOptions(h);
    var rr := InitializeOptions(r);
    forall i | 0 <= i < |Defaults|
      ensures Truthy(Get(r, Defaults[i].0)) || Defaults[i].0 == StaleConnectionCheck
    {
    }
    assert rr.Keys == r.Keys by {
      assert KeysOf(Defaults) <= r.Keys;
    }
    forall k | k in r
      ensures rr[k] == r[k]
    {
      if exists i :: 0 <= i < |Defaults| && Defaults[i].0 == k {
        var i :| 0 <= i < |Defaults| && Defaults[i].0 == k;
        assert Get(rr, k) == Defaulted(r, k, Defaults[i].1);
      } else {
        assert Get(rr, k) == Get(r, k);
      }
    }
  }
}
