/** The pinned signing key of the scanner and the keys it superseded (internal/e2ee/tee_signing_pin.go). */
module RetiredKeys {
  import opened Options

  const RETIRED_LIMIT: nat := 8

  datatype Key = Key(ed: string, ml: string)
  datatype Retired = Retired(key: Key, at: string)
  datatype Record = Record(pin: Option<Key>, retired: seq<Retired>, posture: Option<string>)

  /** An attestation answer, with the time at which it would be pinned. */
  datatype Offer = Offer(key: Key, posture: string, at: string)

  const EMPTY: Record := Record(None, [], None)

  ghost predicate Accepts(rec: Record, key: Key) { rec.pin == Some(key) || Has(rec.retired, key) }

  function Without(list: seq<Retired>, key: Key): seq<Retired> {
    if list == [] then []
    else if list[0].key == key then Without(list[1..], key)
    else [list[0]] + Without(list[1..], key)
  }

  /** dropRetired. */
  method DropRetired(list: seq<Retired>, key: Key) returns (kept: seq<Retired>)
    ensures kept == Without(list, key)
  {
    kept := [];
    var i := 0;
    while i < |list|
      invariant 0 <= i <= |list| && kept + Without(list[i..], key) == Without(list, key)
    {
      if list[i].key != key { kept := kept + [list[i]]; }
      i := i + 1;
    }
  }

  function Last(list: seq<Retired>, n: nat): seq<Retired> {
    if |list| > n then list[|list| - n..] else list
  }

  /** The list after key took over from the pin, before it is cut to length. */
  function Superseded(rec: Record, key: Key, at: string): seq<Retired> {
    var list := match rec.pin
                case None => rec.retired
                case Some(pin) => Without(rec.retired, pin) + [Retired(pin, at)];
    Without(list, key)
  }

  function Repinned(rec: Record, o: Offer, limit: Option<nat>): Record {
    if rec.pin == Some(o.key) then rec.(posture := Some(o.posture))
    else
      var list := Superseded(rec, o.key, o.at);
      Record(Some(o.key), if limit.Some? then Last(list, limit.value) else list, Some(o.posture))
  }

  // ---------------------------------------------------------------- the store

  datatype Answer = Pinned | AlreadyPinned | Rejected

  class PinStore {
    var owners: map<string, Record>
    var readable: bool

    constructor (owners: map<string, Record>, readable: bool)
      ensures this.owners == owners && this.readable == readable
    {
      this.owners, this.readable := owners, readable;
    }

    /**
     RepinTeeSigningPk.  usable says whether the account, the offer and its key pair pass the checks in front;
     stuck whether an unreadable store cannot be set aside.
     */
    method Repin(owner: string, o: Offer, usable: bool, stuck: bool) returns (answer: Answer)
      modifies this
      ensures answer == Rejected <==> !usable || (!old(readable) && stuck)
      ensures answer == AlreadyPinned <==>
                (&& usable && old(readable) && owner in old(owners)
                 && old(owners)[owner].pin == Some(o.key) && old(owners)[owner].posture == Some(o.posture))
      ensures answer != Pinned ==> owners == old(owners) && readable == old(readable)
      ensures answer == Pinned ==>
                var before := if old(readable) then old(owners) else map[];
                var rec := if owner in before then before[owner] else EMPTY;
                readable && owners == before[owner := Repinned(rec, o, Some(RETIRED_LIMIT))]
    {
      if !usable { return Rejected; }
      var found := if readable then owners else map[];
      if !readable && stuck { return Rejected; }
      var rec := if owner in found then found[owner] else EMPTY;
      if rec.pin == Some(o.key) && rec.posture == Some(o.posture) { return AlreadyPinned; }
      if rec.pin != Some(o.key) {
        var list := rec.retired;
        if rec.pin.Some? {
          list := DropRetired(list, rec.pin.value);
          list := list + [Retired(rec.pin.value, o.at)];
        }
        list := DropRetired(list, o.key);
        if |list| > RETIRED_LIMIT { list := list[|list| - RETIRED_LIMIT..]; }
        rec := rec.(retired := list, pin := Some(o.key));
      }
      rec := rec.(posture := Some(o.posture));
      owners, readable := found[owner := rec], true;
      answer := Pinned;
    }
  }

  /** One repin: the new pin and its posture; the old pin is retired last, at the time of the offer; the others stay. */
  lemma {:induction false} RepinRecords(rec: Record, o: Offer)
    ensures var now := Repinned(rec, o, Some(RETIRED_LIMIT));
            && now.pin == Some(o.key) && now.posture == Some(o.posture)
            && (rec.pin == Some(o.key) ==> now.retired == rec.retired)
            && (rec.pin.Some? && rec.pin != Some(o.key) ==>
                  now.retired != [] && now.retired[|now.retired| - 1] == Retired(rec.pin.value, o.at))
            && (forall x :: x in now.retired ==> x in rec.retired || (rec.pin == Some(x.key) && x.at == o.at))
  {
    if rec.pin.Some? && rec.pin != Some(o.key) {
      var pin := Retired(rec.pin.value, o.at);
      var kept := Without(rec.retired, pin.key);
      WithoutConcat(kept, [pin], o.key);
      assert Without([pin], o.key) == [pin];
      WithoutWithin(rec.retired, pin.key);
      WithoutWithin(kept, o.key);
    } else {
      WithoutWithin(rec.retired, o.key);
    }
  }

  lemma {:induction false} WithoutWithin(list: seq<Retired>, key: Key)
    ensures forall x :: x in Without(list, key) <==> x in list && x.key != key
  {
    if list != [] { WithoutWithin(list[1..], key); }
  }

  // ---------------------------------------------------------------- runs

  /** The record after a run of offers, cut to the limit at every step or never. */
  function After(offers: seq<Offer>, limit: Option<nat>): Record {
    if offers == [] then EMPTY else Repinned(After(offers[..|offers| - 1], limit), offers[|offers| - 1], limit)
  }

  ghost predicate Distinct(list: seq<Retired>) {
    forall i, j :: 0 <= i < j < |list| ==> list[i].key != list[j].key
  }

  ghost predicate Has(list: seq<Retired>, key: Key) { exists i :: 0 <= i < |list| && list[i].key == key }

  lemma {:induction false} WithoutKeeps(list: seq<Retired>, key: Key)
    requires Distinct(list)
    ensures Distinct(Without(list, key)) && !Has(Without(list, key), key)
    ensures forall k :: Has(Without(list, key), k) <==> Has(list, k) && k != key
    ensures |Without(list, key)| >= |list| - 1
    ensures !Has(list, key) ==> Without(list, key) == list
  {
    if list != [] {
      var rest := list[1..];
      WithoutKeeps(rest, key);
      forall k ensures Has(list, k) <==> k == list[0].key || Has(rest, k) {
        HasCons(list[0], rest, k);
        assert [list[0]] + rest == list;
      }
      if list[0].key == key {
        assert !Has(rest, key);
      } else {
        forall k ensures Has(Without(list, key), k) <==> k == list[0].key || Has(Without(rest, key), k) {
          HasCons(list[0], Without(rest, key), k);
        }
        assert !Has(rest, list[0].key);
      }
    }
  }

  lemma {:induction false} HasCons(x: Retired, list: seq<Retired>, k: Key)
    ensures Has([x] + list, k) <==> k == x.key || Has(list, k)
  {
    if Has(list, k) {
      var i :| 0 <= i < |list| && list[i].key == k;
      assert ([x] + list)[i + 1].key == k;
    }
    if k == x.key { assert ([x] + list)[0].key == k; }
  }

  lemma {:induction false} HasSnoc(list: seq<Retired>, x: Retired, k: Key)
    ensures Has(list + [x], k) <==> Has(list, k) || k == x.key
  {
    if Has(list, k) {
      var i :| 0 <= i < |list| && list[i].key == k;
      assert (list + [x])[i].key == k;
    }
    if k == x.key { assert (list + [x])[|list|].key == k; }
  }

  lemma {:induction false} WithoutConcat(a: seq<Retired>, b: seq<Retired>, key: Key)
    ensures Without(a + b, key) == Without(a, key) + Without(b, key)
  {
    if a == [] {
      assert a + b == b;
    } else {
      WithoutConcat(a[1..], b, key);
      assert (a + b)[1..] == a[1..] + b;
    }
  }

  /** Every key that was ever pinned, in order, each once per time it was pinned. */
  function History(offers: seq<Offer>): seq<Key> {
    if offers == [] then []
    else
      var h := History(offers[..|offers| - 1]);
      var key := offers[|offers| - 1].key;
      if h != [] && h[|h| - 1] == key then h else h + [key]
  }

  /** When a key was pinned last. */
  function LastPinned(h: seq<Key>, key: Key): int {
    if h == [] then -1 else if h[|h| - 1] == key then |h| - 1 else LastPinned(h[..|h| - 1], key)
  }

  ghost predicate ByLastPinned(list: seq<Retired>, h: seq<Key>) {
    forall i, j :: 0 <= i < j < |list| ==> LastPinned(h, list[i].key) < LastPinned(h, list[j].key)
  }

  /** The uncut list: the keys once pinned and pinned no more, in the order of their last use. */
  ghost predicate Describes(rec: Record, h: seq<Key>) {
    && rec.pin == (if h == [] then None else Some(h[|h| - 1]))
    && Distinct(rec.retired) && ByLastPinned(rec.retired, h)
    && (forall k :: Has(rec.retired, k) <==> k in h && Some(k) != rec.pin)
    && (|h| >= 2 ==> rec.retired != [] && rec.retired[|rec.retired| - 1].key == h[|h| - 2])
  }

  lemma {:induction false} LastPinnedBound(h: seq<Key>, key: Key)
    ensures LastPinned(h, key) < |h|
    ensures h != [] && key != h[|h| - 1] ==> LastPinned(h, key) < |h| - 1
  {
    if h != [] { LastPinnedBound(h[..|h| - 1], key); }
  }

  lemma {:induction false} WithoutByLastPinned(list: seq<Retired>, key: Key, h: seq<Key>)
    requires Distinct(list) && ByLastPinned(list, h)
    ensures ByLastPinned(Without(list, key), h)
  {
    if list != [] {
      var rest := list[1..];
      WithoutByLastPinned(rest, key, h);
      WithoutKeeps(rest, key);
      var kept := Without(rest, key);
      forall j | 0 <= j < |kept| ensures LastPinned(h, list[0].key) < LastPinned(h, kept[j].key) {
        assert Has(kept, kept[j].key);
        var i :| 0 <= i < |rest| && rest[i].key == kept[j].key;
        assert list[i + 1] == rest[i];
      }
    }
  }

  lemma {:induction false} WithoutLast(list: seq<Retired>, key: Key)
    requires list != [] && list[|list| - 1].key != key
    ensures var kept := Without(list, key); kept != [] && kept[|kept| - 1] == list[|list| - 1]
  {
    var n := |list| - 1;
    WithoutConcat(list[..n], [list[n]], key);
    assert list == list[..n] + [list[n]];
    assert Without([list[n]], key) == [list[n]];
  }

  lemma {:induction false} LastPinnedElsewhere(h: seq<Key>, key: Key, k: Key)
    requires k != key
    ensures LastPinned(h + [key], k) == LastPinned(h, k)
  {
    assert (h + [key])[..|h|] == h;
  }

  /** The pin joins the keys that are pinned no more. */
  lemma {:induction false} PinRetires(rec: Record, h: seq<Key>, at: string)
    requires h != [] && Describes(rec, h)
    ensures var list := Without(rec.retired, h[|h| - 1]) + [Retired(h[|h| - 1], at)];
            && list == rec.retired + [Retired(h[|h| - 1], at)]
            && Distinct(list) && ByLastPinned(list, h) && (forall k :: Has(list, k) <==> k in h)
  {
    var pin := h[|h| - 1];
    WithoutKeeps(rec.retired, pin);
    var list := rec.retired + [Retired(pin, at)];
    forall k ensures Has(list, k) <==> Has(rec.retired, k) || k == pin { HasSnoc(rec.retired, Retired(pin, at), k); }
    forall i | 0 <= i < |rec.retired| ensures LastPinned(h, list[i].key) < LastPinned(h, pin) && list[i].key != pin {
      assert Has(rec.retired, rec.retired[i].key);
      LastPinnedBound(h, list[i].key);
    }
  }

  /** The uncut list describes the history after every run. */
  lemma {:induction false} UncutIsHistory(offers: seq<Offer>)
    ensures Describes(After(offers, None), History(offers))
  {
    if offers != [] {
      var n := |offers| - 1;
      UncutIsHistory(offers[..n]);
      RepinDescribes(After(offers[..n], None), History(offers[..n]), offers[n]);
    }
  }

  lemma {:induction false} RepinDescribes(rec: Record, h: seq<Key>, o: Offer)
    requires Describes(rec, h)
    ensures Describes(Repinned(rec, o, None), if h != [] && h[|h| - 1] == o.key then h else h + [o.key])
  {
    if h == [] {
      NothingRetired(rec);
      assert Superseded(rec, o.key, o.at) == [];
      assert Repinned(rec, o, None) == Record(Some(o.key), [], Some(o.posture));
      FirstPin(o);
    } else if h[|h| - 1] != o.key {
      PinRetires(rec, h, o.at);
      PinMoves(rec.retired + [Retired(h[|h| - 1], o.at)], h, o);
    }
  }

  lemma {:induction false} PinMoves(list: seq<Retired>, h: seq<Key>, o: Offer)
    requires h != [] && o.key != h[|h| - 1] && Distinct(list) && ByLastPinned(list, h)
    requires list != [] && list[|list| - 1].key == h[|h| - 1] && forall k :: Has(list, k) <==> k in h
    ensures Describes(Record(Some(o.key), Without(list, o.key), Some(o.posture)), h + [o.key])
  {
    NewPin(list, h, o.key);
    assert (h + [o.key])[|h| - 1] == h[|h| - 1];
  }

  lemma {:induction false} FirstPin(o: Offer)
    ensures Describes(Record(Some(o.key), [], Some(o.posture)), [] + [o.key])
  {
  }

  lemma {:induction false} NothingRetired(rec: Record)
    requires Describes(rec, [])
    ensures rec.retired == []
  {
    if rec.retired != [] { assert Has(rec.retired, rec.retired[0].key); }
  }

  lemma {:induction false} NewPin(list: seq<Retired>, h: seq<Key>, key: Key)
    requires h != [] && key != h[|h| - 1] && Distinct(list) && ByLastPinned(list, h)
    requires list != [] && list[|list| - 1].key == h[|h| - 1] && forall k :: Has(list, k) <==> k in h
    ensures var kept := Without(list, key);
            && Distinct(kept) && ByLastPinned(kept, h + [key])
            && (forall k :: Has(kept, k) <==> k in h + [key] && k != key)
            && kept != [] && kept[|kept| - 1].key == h[|h| - 1]
  {
    var kept := Without(list, key);
    WithoutKeeps(list, key);
    WithoutByLastPinned(list, key, h);
    WithoutLast(list, key);
    forall i | 0 <= i < |kept| ensures LastPinned(h + [key], kept[i].key) == LastPinned(h, kept[i].key) {
      assert Has(kept, kept[i].key);
      LastPinnedElsewhere(h, key, kept[i].key);
    }
  }

  /** Cutting before or after a key is taken out leaves the same last entries. */
  lemma {:induction false} LastWithout(list: seq<Retired>, key: Key, n: nat)
    requires Distinct(list)
    ensures Last(Without(list, key), n) == Last(Without(Last(list, n + 1), key), n)
  {
    if |list| > n + 1 {
      var k := |list| - (n + 1);
      var a, b := list[..k], list[k..];
      assert list == a + b;
      WithoutConcat(a, b, key);
      assert forall i :: 0 <= i < |b| ==> b[i] == list[k + i];
      WithoutKeeps(b, key);
      LastConcat(Without(a, key), Without(b, key), n);
    }
  }

  lemma {:induction false} LastConcat(a: seq<Retired>, b: seq<Retired>, n: nat)
    requires |b| >= n
    ensures Last(a + b, n) == Last(b, n)
  {
  }

  /** Cutting at every step keeps exactly the last eight entries of the uncut list. */
  lemma {:induction false} CutIsSuffix(offers: seq<Offer>)
    ensures var cut, uncut := After(offers, Some(RETIRED_LIMIT)), After(offers, None);
            && cut == uncut.(retired := Last(uncut.retired, RETIRED_LIMIT))
  {
    if offers != [] {
      var n := |offers| - 1;
      CutIsSuffix(offers[..n]);
      UncutIsHistory(offers[..n]);
      var cut, uncut, o := After(offers[..n], Some(RETIRED_LIMIT)), After(offers[..n], None), offers[n];
      var h := History(offers[..n]);
      if h == [] {
        NothingRetired(uncut);
      } else if h[|h| - 1] != o.key {
        var pin := Retired(h[|h| - 1], o.at);
        PinRetires(uncut, h, o.at);
        CutHasNoPin(uncut, pin.key);
        assert Last(uncut.retired, RETIRED_LIMIT) + [pin] == Last(uncut.retired + [pin], RETIRED_LIMIT + 1);
        LastWithout(uncut.retired + [pin], o.key, RETIRED_LIMIT);
      }
    }
  }

  lemma {:induction false} CutHasNoPin(uncut: Record, pin: Key)
    requires Distinct(uncut.retired) && !Has(uncut.retired, pin)
    ensures var list := Last(uncut.retired, RETIRED_LIMIT); Distinct(list) && Without(list, pin) == list
  {
    var list := Last(uncut.retired, RETIRED_LIMIT);
    forall i | 0 <= i < |list| ensures list[i].key != pin {
      assert uncut.retired[|uncut.retired| - |list| + i] == list[i];
    }
    WithoutKeeps(list, pin);
  }

  /**
   After any run of repins: at most eight retired keys, none twice, never the pin; and the key superseded last is
   still accepted.
   */
  lemma {:induction false} RetiredAfterRun(offers: seq<Offer>)
    ensures var rec, h := After(offers, Some(RETIRED_LIMIT)), History(offers);
            && |rec.retired| <= RETIRED_LIMIT && Distinct(rec.retired)
            && rec.pin == (if h == [] then None else Some(h[|h| - 1]))
            && (rec.pin.Some? ==> !Has(rec.retired, rec.pin.value))
            && (|h| >= 2 ==> Accepts(rec, h[|h| - 2]) && Accepts(rec, h[|h| - 1]))
            && (forall k :: Accepts(rec, k) ==> k in h)
  {
    CutIsSuffix(offers);
    UncutIsHistory(offers);
    SuffixDescribes(After(offers, None), History(offers));
  }

  /** What the last eight entries inherit from the whole list. */
  lemma {:induction false} SuffixDescribes(uncut: Record, h: seq<Key>)
    requires Describes(uncut, h)
    ensures var list := Last(uncut.retired, RETIRED_LIMIT);
            && Distinct(list)
            && (forall k :: Has(list, k) ==> Has(uncut.retired, k))
            && (|h| >= 2 ==> Has(list, h[|h| - 2]))
  {
    var list := Last(uncut.retired, RETIRED_LIMIT);
    var shift := |uncut.retired| - |list|;
    assert forall i :: 0 <= i < |list| ==> list[i] == uncut.retired[shift + i];
    forall k | Has(list, k) ensures Has(uncut.retired, k) {
      var i :| 0 <= i < |list| && list[i].key == k;
      assert uncut.retired[shift + i].key == k;
    }
    if |h| >= 2 { assert list[|list| - 1].key == h[|h| - 2]; }
  }
}
