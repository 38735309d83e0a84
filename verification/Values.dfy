/** The dynamically typed values and records that the in-memory database stores. */
module Values {

  datatype Option<+T> = None | Some(value: T)

  /** A field value.  Nil is what a Go map read yields for a missing field. */
  datatype Value =
    | Nil
    | Str(s: string)
    | Int(i: int)
    | Bool(b: bool)
    | StrList(l: seq<string>)

  type Record = map<string, Value>

  /** Reading a field of a record without asking whether it is there. */
  function Lookup(r: Record, field: string): Value {
    if field in r then r[field] else Nil
  }

  /** The string held by a value, or the empty string when it holds something else. */
  function AsString(v: Value): string {
    if v.Str? then v.s else ""
  }

  /** The string list held by a value, or the empty list when it holds something else. */
  function AsList(v: Value): seq<string> {
    if v.StrList? then v.l else []
  }

  function StringField(r: Record, field: string): string {
    AsString(Lookup(r, field))
  }

  /** The "%v" rendering that turns a primary key value into a record key. */
  function Format(v: Value): string {
    match v
    case Nil => "<nil>"
    case Str(s) => s
    case Int(i) => if i < 0 then "-" + Digits(-i) else Digits(i)
    case Bool(b) => if b then "true" else "false"
    case StrList(l) => "[" + Spaced(l) + "]"
  }

  function Digits(n: nat): string {
    if n < 10 then ["0123456789"[n]] else Digits(n / 10) + ["0123456789"[n % 10]]
  }

  function Spaced(l: seq<string>): string {
    if |l| == 0 then "" else if |l| == 1 then l[0] else l[0] + " " + Spaced(l[1..])
  }

  ghost predicate NoDuplicates<T>(s: seq<T>) {
    forall i, j :: 0 <= i < j < |s| ==> s[i] != s[j]
  }

  lemma FrontOfConcat<T>(xs: seq<T>, ys: seq<T>)
    requires ys != []
    ensures (xs + ys)[..|xs + ys| - 1] == xs + ys[..|ys| - 1]
    ensures (xs + ys)[|xs + ys| - 1] == ys[|ys| - 1]
  {
  }

  lemma ConcatNothing<T>(xs: seq<T>, ys: seq<T>)
    requires ys == []
    ensures xs + ys == xs
  {
  }

  lemma PrefixNext<T>(s: seq<T>, i: int)
    requires 0 <= i < |s|
    ensures s[..i + 1][..i] == s[..i] && s[..i + 1][i] == s[i]
  {
  }

  lemma WholePrefix<T>(s: seq<T>)
    ensures s[..|s|] == s
  {
  }

  /** Two maps with the same bindings are the same map. */
  lemma SameMap<K, V>(a: map<K, V>, b: map<K, V>)
    requires a.Keys == b.Keys && forall k :: k in a ==> a[k] == b[k]
    ensures a == b
  {
  }

  lemma SlicesJoin<T>(s: seq<T>, a: nat, i: nat)
    requires a <= i <= |s|
    ensures s[..a] + s[a..i] == s[..i] && s[..i] + s[i..] == s && s[..|s|] == s && s[a..a] == []
  {
  }
}
