/**
 * Java objects as the ingestion code inspects them with `instanceof`: the
 * metadata of a Spring AI document is a `Map<String, Object>` whose values
 * may be null, strings, numbers, booleans, nested maps, collections, arrays
 * or any other object.  A map is the sequence of its entries in iteration
 * order; a key is the text of the key object, or null.
 */
module JavaValues {
  import opened Base
  import opened Text
  import opened Store

  datatype Value =
    | Null
    | Str(s: string)
    | Num(n: int)
    | Bool(b: bool)
    | MapV(entries: seq<Entry>)
    | ListV(items: seq<Value>)
    | ArrayV(items: seq<Value>)
      /** Any other object: its simple class name and its String.valueOf text. */
    | Obj(typeName: string, text: string)

  datatype Entry = Entry(key: Option<string>, value: Value)

  /** A Spring AI document: id, text and metadata, each possibly null. */
  datatype AiDocument = AiDocument(id: Option<string>, text: Option<string>, metadata: Option<seq<Entry>>)

  /** The location of a metadata value, as the warnings and errors spell it:
      `doc[i].metadata` or `payload[i].metadata` for the metadata of the i-th
      document, then `.key` for a map entry and `[i]` for an element. */
  datatype Path =
    | DocMetadata(doc: nat)
    | PayloadMetadata(doc: nat)
    | Field(parent: Path, key: string)
    | Item(parent: Path, index: nat)

  function PathText(p: Path): string
  {
    match p
    case DocMetadata(i) => "doc[" + NatToString(i) + "].metadata"
    case PayloadMetadata(i) => "payload[" + NatToString(i) + "].metadata"
    case Field(parent, key) => PathText(parent) + "." + key
    case Item(parent, i) => PathText(parent) + "[" + NatToString(i) + "]"
  }

  function EntryKey(e: Entry): Option<string> { e.key }

  /** `Map.put`: the entry with the same key is replaced, otherwise one is added. */
  function Put(es: seq<Entry>, k: string, v: Value): (r: seq<Entry>)
    ensures Entry(Some(k), v) in r
    ensures forall e :: e in r ==> e == Entry(Some(k), v) || e in es
  {
    Upsert(es, Entry(Some(k), v), EntryKey)
  }

  /** `Map.get` on a map with unique keys: the value of the first entry with key `k`. */
  function Lookup(es: seq<Entry>, k: string): (r: Option<Value>)
    ensures r.Some? <==> exists e :: e in es && e.key == Some(k)
    ensures r.Some? ==> Entry(Some(k), r.value) in es
  {
    if |es| == 0 then None
    else if es[0].key == Some(k) then Some(es[0].value)
    else
      var r := Lookup(es[1..], k);
      assert forall e :: e in es[1..] ==> e in es;
      assert forall e :: e in es ==> e == es[0] || e in es[1..];
      r
  }

  /** The first entry with key `k` decides the lookup. */
  lemma {:induction false} LookupFirst(es: seq<Entry>, k: string, i: nat)
    requires i < |es| && es[i].key == Some(k)
    requires forall t :: 0 <= t < i ==> es[t].key != Some(k)
    ensures Lookup(es, k) == Some(es[i].value)
  {
    if i > 0 {
      LookupFirst(es[1..], k, i - 1);
    }
  }

  /** Two maps that agree, position by position, on which entries carry key
      `k` and on their values give the same lookup for `k`. */
  lemma {:induction false} LookupSame(es: seq<Entry>, fs: seq<Entry>, k: string)
    requires |es| == |fs|
    requires forall t :: 0 <= t < |es| ==> (es[t].key == Some(k) <==> fs[t].key == Some(k))
    requires forall t :: 0 <= t < |es| && es[t].key == Some(k) ==> es[t].value == fs[t].value
    ensures Lookup(es, k) == Lookup(fs, k)
  {
    if |es| > 0 {
      LookupSame(es[1..], fs[1..], k);
    }
  }

  /** Appending an entry with another key does not change the lookup. */
  lemma {:induction false} LookupAppendOther(es: seq<Entry>, x: Entry, k: string)
    requires x.key != Some(k)
    ensures Lookup(es + [x], k) == Lookup(es, k)
  {
    if |es| == 0 {
      assert (es + [x])[1..] == [];
    } else {
      assert (es + [x])[1..] == es[1..] + [x];
      LookupAppendOther(es[1..], x, k);
    }
  }

  /** After `put(k, v)`, `get(k)` is `v` and every other key keeps its value. */
  lemma {:induction false} LookupPut(es: seq<Entry>, k: string, v: Value, k2: string)
    ensures Lookup(Put(es, k, v), k2) == if k2 == k then Some(v) else Lookup(es, k2)
  {
    var row := Entry(Some(k), v);
    var r := Put(es, k, v);
    var i := FindIndex(es, (x: Entry) => EntryKey(x) == EntryKey(row));
    if i.Some? {
      assert r == es[i.value := row];
      if k2 == k {
        LookupFirst(r, k, i.value);
      } else {
        LookupSame(r, es, k2);
      }
    } else {
      assert r == es + [row];
      if k2 == k {
        LookupFirst(r, k, |es|);
      } else {
        LookupAppendOther(es, row, k2);
      }
    }
  }

  /** The keys a sanitised map may carry: present, trimmed and not empty. */
  predicate NormalKey(k: Option<string>)
  {
    k.Some? && |k.value| > 0 && !IsJavaSpace(k.value[0]) && !IsJavaSpace(k.value[|k.value| - 1])
  }

  /** No null anywhere: neither a null value nor a null key, at any depth. */
  predicate NullFree(v: Value)
  {
    match v
    case Null => false
    case MapV(es) => forall i :: 0 <= i < |es| ==> es[i].key.Some? && NullFree(es[i].value)
    case ListV(items) => forall i :: 0 <= i < |items| ==> NullFree(items[i])
    case ArrayV(items) => forall i :: 0 <= i < |items| ==> NullFree(items[i])
    case _ => true
  }

  /** Number of nodes of a value; it bounds the depth of the recursive walks. */
  function Size(v: Value): (r: nat)
    ensures r >= 1
  {
    match v
    case MapV(es) => 1 + EntriesSize(es)
    case ListV(items) => 1 + ItemsSize(items)
    case ArrayV(items) => 1 + ItemsSize(items)
    case _ => 1
  }

  function EntriesSize(es: seq<Entry>): nat
  {
    if |es| == 0 then 0
    else
      var e := es[0];
      assert e.value < e;
      1 + Size(e.value) + EntriesSize(es[1..])
  }

  function ItemsSize(vs: seq<Value>): nat
  {
    if |vs| == 0 then 0 else 1 + Size(vs[0]) + ItemsSize(vs[1..])
  }

  lemma {:induction false} EntriesSizeAppend(a: seq<Entry>, b: seq<Entry>)
    ensures EntriesSize(a + b) == EntriesSize(a) + EntriesSize(b)
  {
    if |a| > 0 {
      assert (a + b)[1..] == a[1..] + b;
      EntriesSizeAppend(a[1..], b);
    } else {
      assert a + b == b;
    }
  }

  lemma {:induction false} ItemsSizeAppend(a: seq<Value>, b: seq<Value>)
    ensures ItemsSize(a + b) == ItemsSize(a) + ItemsSize(b)
  {
    if |a| > 0 {
      assert (a + b)[1..] == a[1..] + b;
      ItemsSizeAppend(a[1..], b);
    } else {
      assert a + b == b;
    }
  }

  lemma {:induction false} EntriesSizeUpdate(a: seq<Entry>, i: nat, x: Entry)
    requires i < |a|
    ensures EntriesSize(a[i := x]) + Size(a[i].value) == EntriesSize(a) + Size(x.value)
  {
    if i > 0 {
      assert a[i := x][1..] == a[1..][i - 1 := x];
      EntriesSizeUpdate(a[1..], i - 1, x);
    } else {
      assert a[i := x][1..] == a[1..];
    }
  }

  /** A `put` grows a map by at most the size of the new entry. */
  lemma {:induction false} PutSize(es: seq<Entry>, k: string, v: Value)
    ensures EntriesSize(Put(es, k, v)) <= EntriesSize(es) + 1 + Size(v)
  {
    var row := Entry(Some(k), v);
    var i := FindIndex(es, (x: Entry) => EntryKey(x) == EntryKey(row));
    if i.Some? {
      EntriesSizeUpdate(es, i.value, row);
    } else {
      EntriesSizeAppend(es, [row]);
      assert [row][1..] == [];
    }
  }
}
