/**
 * JSON values as the Python code sees them after decoding, and the semantics of the
 * two operations the code applies to them: subscripting (`v[key]`, `v[0]`) and
 * iteration (`for item in v`).
 */
module PyJson {
  import opened Wrappers

  /**
   * A decoded JSON value: Python's None, bool, int, str, list and dict. A dict keeps its
   * entries in insertion order, as Python's does.
   */
  datatype Json =
    | JNull
    | JBool(b: bool)
    | JNum(n: int)
    | JStr(s: string)
    | JArr(items: seq<Json>)
    | JObj(fields: seq<(string, Json)>)

  /** The keys of a dict's entries, in order. */
  function Keys(fields: seq<(string, Json)>): (r: seq<string>)
    ensures |r| == |fields| && forall i :: 0 <= i < |fields| ==> r[i] == fields[i].0
  {
    seq(|fields|, i requires 0 <= i < |fields| => fields[i].0)
  }

  /** The value stored under `name`; the last entry wins, as when Python builds a dict. */
  function Lookup(fields: seq<(string, Json)>, name: string): (r: Option<Json>)
    ensures r.None? <==> name !in Keys(fields)
    decreases |fields|
  {
    if fields == [] then None
    else
      var last := fields[|fields| - 1];
      if last.0 == name then Some(last.1)
      else
        var r := Lookup(fields[..|fields| - 1], name);
        assert Keys(fields) == Keys(fields[..|fields| - 1]) + [last.0];
        r
  }

  /** A value found under `name` is the value of the last entry with that key. */
  lemma {:induction false} LookupFindsLastEntry(fields: seq<(string, Json)>, name: string)
    requires Lookup(fields, name).Some?
    ensures exists i :: 0 <= i < |fields| && fields[i] == (name, Lookup(fields, name).value) &&
                        forall k :: i < k < |fields| ==> fields[k].0 != name
    decreases |fields|
  {
    var last := |fields| - 1;
    if fields[last].0 != name {
      var init := fields[..last];
      LookupFindsLastEntry(init, name);
      var i :| 0 <= i < |init| && init[i] == (name, Lookup(init, name).value) &&
               forall k :: i < k < |init| ==> init[k].0 != name;
      assert fields[i] == init[i];
    }
  }

  /** The exceptions a subscript or an iteration can raise. */
  datatype PyError = KeyError | IndexError | TypeError

  /** A subscript: a string key or a non-negative integer index. */
  datatype Key = Field(name: string) | Index(i: nat)

  /**
   * `j[k]`. A dict looks the key up (an integer key is never present, as JSON keys are
   * strings) and raises KeyError when it is absent; a list or a string is indexed and
   * raises IndexError past its end and TypeError for a string key; any other value is
   * not subscriptable.
   */
  function Subscript(j: Json, k: Key): (r: Result<Json, PyError>)
    ensures r == Err(KeyError) <==> j.JObj? && (k.Index? || k.name !in Keys(j.fields))
    ensures r == Err(IndexError) <==>
              k.Index? && ((j.JArr? && k.i >= |j.items|) || (j.JStr? && k.i >= |j.s|))
    ensures r.Ok? && j.JObj? ==> k.Field? && Lookup(j.fields, k.name) == Some(r.value)
    ensures r.Ok? && j.JArr? ==> k.Index? && k.i < |j.items| && r.value == j.items[k.i]
    ensures r.Ok? && j.JStr? ==> k.Index? && k.i < |j.s| && r.value == JStr([j.s[k.i]])
    ensures r == Err(TypeError) <==> !j.JObj? && !((j.JArr? || j.JStr?) && k.Index?)
  {
    match j
    case JObj(m) =>
      (match k
       case Field(name) =>
         (match Lookup(m, name)
          case Some(v) => Ok(v)
          case None => Err(KeyError))
       case Index(_) => Err(KeyError))
    case JArr(items) =>
      (match k
       case Index(i) => if i < |items| then Ok(items[i]) else Err(IndexError)
       case Field(_) => Err(TypeError))
    case JStr(s) =>
      (match k
       case Index(i) => if i < |s| then Ok(JStr([s[i]])) else Err(IndexError)
       case Field(_) => Err(TypeError))
    case _ => Err(TypeError)
  }

  /** `j[p0][p1]...`: the subscripts applied left to right; the first exception ends the walk. */
  function Walk(j: Json, path: seq<Key>): Result<Json, PyError>
    decreases |path|
  {
    if path == [] then Ok(j)
    else
      match Subscript(j, path[0])
      case Err(e) => Err(e)
      case Ok(child) => Walk(child, path[1..])
  }

  /**
   * When a walk reaches a dict that lacks the next key, the whole walk raises KeyError,
   * whatever the rest of the path.
   */
  lemma {:induction false} WalkMissingField(j: Json, path: seq<Key>, i: nat, m: seq<(string, Json)>)
    requires i < |path| && path[i].Field? && path[i].name !in Keys(m)
    requires Walk(j, path[..i]) == Ok(JObj(m))
    ensures Walk(j, path) == Err(KeyError)
    decreases i
  {
    if i == 0 {
      assert j == JObj(m);
    } else {
      assert path[..i][0] == path[0];
      assert path[..i][1..] == path[1..][..i - 1];
      WalkMissingField(Subscript(j, path[0]).value, path[1..], i - 1, m);
    }
  }

  /** A walk along `p + q` is the walk along `p`, then (if that succeeded) the walk along `q`. */
  lemma {:induction false} WalkSplit(j: Json, p: seq<Key>, q: seq<Key>)
    ensures Walk(j, p + q) == (if Walk(j, p).Ok? then Walk(Walk(j, p).value, q) else Walk(j, p))
    decreases |p|
  {
    if p == [] {
      assert p + q == q;
    } else {
      assert (p + q)[0] == p[0];
      assert (p + q)[1..] == p[1..] + q;
      if Subscript(j, p[0]).Ok? {
        WalkSplit(Subscript(j, p[0]).value, p[1..], q);
      }
    }
  }

  /**
   * `for item in j`: a list yields its elements, a string its one-character strings and a
   * dict its keys; anything else is not iterable.
   */
  function Iterate(j: Json): (r: Result<seq<Json>, PyError>)
    ensures r.Ok? <==> j.JArr? || j.JStr? || j.JObj?
    ensures j.JArr? ==> r == Ok(j.items)
  {
    match j
    case JArr(items) => Ok(items)
    case JStr(s) => Ok(seq(|s|, i requires 0 <= i < |s| => JStr([s[i]])))
    case JObj(m) => Ok(seq(|m|, i requires 0 <= i < |m| => JStr(m[i].0)))
    case _ => Err(TypeError)
  }

  /** Iterating a string yields its characters, and iterating a dict yields its keys, in order. */
  lemma IterateItems(j: Json)
    ensures j.JStr? ==> |Iterate(j).value| == |j.s| && forall i :: 0 <= i < |j.s| ==> Iterate(j).value[i] == JStr([j.s[i]])
    ensures j.JObj? ==> |Iterate(j).value| == |j.fields| && forall i :: 0 <= i < |j.fields| ==> Iterate(j).value[i] == JStr(j.fields[i].0)
  {
  }
}
