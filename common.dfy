/** Values shared by the integration's modules: the decoded JSON values the
    MeteoAM API returns, the config entry's data, and two sequence helpers
    (the indices that satisfy a test, the last index that does). */
module Common {

  datatype Option<+T> = None | Some(value: T)

  /** A naive (timezone-free) wall-clock date-time; the model uses only its order. */
  type Timestamp = int

  /** A decoded JSON scalar, or a parsed date-time stored in a forecast record. */
  datatype Value =
    | Null
    | Bool(b: bool)
    | Number(n: real)
    | Text(s: string)
    | Time(t: Timestamp)

  /** A JSON object, or a Python dict with string keys. */
  type Record = map<string, Value>

  /** Python truthiness of a value. */
  predicate Truthy(v: Value) {
    match v
    case Null => false
    case Bool(b) => b
    case Number(n) => n != 0.0
    case Text(s) => s != ""
    case Time(_) => true
  }

  /** The data of a config entry: the truthiness of CONF_TRACK_HOME, the
      configured latitude and longitude, and CONF_NAME when it is set. */
  datatype Config = Config(trackHome: bool, latitude: real, longitude: real, name: Option<string>)

  function DigitChar(d: nat): char
    requires d < 10
  {
    "0123456789"[d]
  }

  /** Python's `str` of a non-negative int: its decimal digits. */
  function NatToString(n: nat): string
  {
    if n < 10 then [DigitChar(n)] else NatToString(n / 10) + [DigitChar(n % 10)]
  }

  /** The indices of the elements of `s` that satisfy `p`, in increasing order. */
  function Indices<T>(s: seq<T>, p: T -> bool): seq<nat>
  {
    if |s| == 0 then []
    else Indices(s[..|s| - 1], p) + (if p(s[|s| - 1]) then [|s| - 1] else [])
  }

  /** `r` lists, strictly increasing, exactly the indices of `s` whose element satisfies `p`. */
  ghost predicate SelectsExactly<T>(r: seq<nat>, s: seq<T>, p: T -> bool) {
    && (forall j :: 0 <= j < |r| ==> r[j] < |s| && p(s[r[j]]))
    && (forall j, k :: 0 <= j < k < |r| ==> r[j] < r[k])
    && (forall i :: 0 <= i < |s| && p(s[i]) ==> i in r)
  }

  lemma {:induction false} IndicesSpec<T>(s: seq<T>, p: T -> bool)
    ensures SelectsExactly(Indices(s, p), s, p)
  {
    if |s| > 0 {
      var init := s[..|s| - 1];
      IndicesSpec(init, p);
      assert forall i :: 0 <= i < |init| ==> init[i] == s[i];
    }
  }

  /** The last index of `s` whose element satisfies `p`, if there is one. */
  function LastIndex<T>(s: seq<T>, p: T -> bool): Option<nat>
  {
    if |s| == 0 then None
    else if p(s[|s| - 1]) then Some(|s| - 1)
    else LastIndex(s[..|s| - 1], p)
  }

  lemma {:induction false} LastIndexSpec<T>(s: seq<T>, p: T -> bool)
    ensures LastIndex(s, p).Some? ==>
      && LastIndex(s, p).value < |s|
      && p(s[LastIndex(s, p).value])
      && forall j :: LastIndex(s, p).value < j < |s| ==> !p(s[j])
    ensures LastIndex(s, p).None? ==> forall j :: 0 <= j < |s| ==> !p(s[j])
  {
    if |s| > 0 && !p(s[|s| - 1]) {
      var init := s[..|s| - 1];
      LastIndexSpec(init, p);
      assert forall i :: 0 <= i < |init| ==> init[i] == s[i];
    }
  }
}
