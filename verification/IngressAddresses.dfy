/** Addresses of ingresses: the order they are shown in, and the fallback to the addresses of the class. */
module IngressAddresses {
  import opened Sorting
  import opened Strings

  // ── Lists of addresses ───────────────────────────────────────────────────

  predicate IsIpv4(address: string) {
    '.' in address && ':' !in address
  }

  /** IPv4 addresses come first; within a group addresses are in string order. */
  function AddressOrder(address: string): Key {
    (if IsIpv4(address) then "0" else "1", address)
  }

  function SortAddresses(addresses: seq<string>): seq<string> {
    DedupBy(SortBy(addresses, AddressOrder), AddressOrder)
  }

  /** Sorting and deduplicating gives the one strictly ordered list of the same addresses. */
  lemma SortAddressesExact(addresses: seq<string>)
    ensures StrictlySorted(SortAddresses(addresses), AddressOrder)
    ensures forall a :: a in SortAddresses(addresses) <==> a in addresses
  {
    var sorted := SortBy(addresses, AddressOrder);
    SortBySorted(addresses, AddressOrder);
    DedupByStrict(sorted, AddressOrder);
    DedupByMembers(sorted, AddressOrder);
    forall a ensures a in SortAddresses(addresses) <==> a in addresses {
      assert a in multiset(sorted) <==> a in multiset(addresses);
      if a in addresses {
        assert a in sorted;
        var i :| 0 <= i < |sorted| && sorted[i] == a;
        var y := DedupByKeeps(sorted, AddressOrder, i);
      }
    }
  }

  predicate HasChar(s: string, c: char) {
    exists i :: 0 <= i < |s| && s[i] == c
  }

  /** Addresses with points and without colons come first; otherwise they are in the order of their characters. */
  lemma Ipv4First(addresses: seq<string>, i: nat, j: nat)
    requires i < j < |SortAddresses(addresses)|
    ensures var a, b := SortAddresses(addresses)[i], SortAddresses(addresses)[j];
      var aIsIpv4, bIsIpv4 := HasChar(a, '.') && !HasChar(a, ':'), HasChar(b, '.') && !HasChar(b, ':');
      && (bIsIpv4 ==> aIsIpv4)
      && (aIsIpv4 == bIsIpv4 ==> a != b && Precedes(a, b))
  {
    SortAddressesExact(addresses);
    var a, b := SortAddresses(addresses)[i], SortAddresses(addresses)[j];
    hide SortAddresses;
    assert KeyLess(AddressOrder(a), AddressOrder(b));
    KeyLeqExact(AddressOrder(a), AddressOrder(b));
    StrLeqExact("1", "0");
    assert !StrLeq("1", "0");
    assert HasChar(a, '.') <==> '.' in a;
    assert HasChar(a, ':') <==> ':' in a;
    assert HasChar(b, '.') <==> '.' in b;
    assert HasChar(b, ':') <==> ':' in b;
    hide Precedes, KeyLeq, HasChar;
  }

  lemma SortAddressesUnique(a: seq<string>, b: seq<string>)
    requires forall x :: x in a <==> x in b
    ensures SortAddresses(a) == SortAddresses(b)
  {
    SortAddressesExact(a);
    SortAddressesExact(b);
    StrictlySortedUnique(SortAddresses(a), SortAddresses(b), AddressOrder);
  }

  // ── Lists shown as one string ────────────────────────────────────────────

  const SEP := ", "

  /** The separator does not occur in a part. */
  ghost predicate Apart(part: string) {
    forall k :: 0 <= k < |part| - 1 ==> !(part[k] == ',' && part[k + 1] == ' ')
  }

  lemma ApartIsClean(part: string)
    requires Apart(part)
    ensures Clean(part, SEP)
  {
    forall k | 0 <= k < |part| ensures !(SEP <= (part + SEP)[k..]) {
      var tail := (part + SEP)[k..];
      assert tail[0] == part[k] && tail[1] == if k + 1 < |part| then part[k + 1] else ',';
    }
  }

  lemma {:induction false} SplitStart(s: string)
    ensures Split(s, SEP)[0] <= s
    decreases |s|
  {
    if |s| < |SEP| || SEP <= s {
    } else {
      SplitStart(s[1..]);
    }
  }

  lemma {:induction false} SplitApart(s: string)
    ensures forall i :: 0 <= i < |Split(s, SEP)| ==> Apart(Split(s, SEP)[i])
    decreases |s|
  {
    if |s| < |SEP| {
    } else {
      if SEP <= s {
        SplitApart(s[|SEP|..]);
      } else {
        var rest := Split(s[1..], SEP);
        SplitApart(s[1..]);
        SplitStart(s[1..]);
        var first := [s[0]] + rest[0];
        assert !(s[0] == ',' && s[1] == ' ');
        assert Apart(first) by {
          assert Apart(rest[0]);
          assert forall k :: 1 <= k < |first| ==> first[k] == rest[0][k - 1];
        }
      }
    }
  }

  function NonEmpty(parts: seq<string>): (r: seq<string>)
    ensures forall p :: p in r <==> p in parts && p != ""
  {
    if parts == [] then [] else (if parts[0] == "" then [] else [parts[0]]) + NonEmpty(parts[1..])
  }

  /** The addresses in a shown string. */
  function Parts(shown: string): seq<string> {
    NonEmpty(Split(shown, SEP))
  }

  lemma PartsApart(shown: string)
    ensures forall p :: p in Parts(shown) ==> p != "" && Apart(p)
  {
    SplitApart(shown);
  }

  lemma {:induction false} NonEmptyAll(parts: seq<string>)
    requires forall p :: p in parts ==> p != ""
    ensures NonEmpty(parts) == parts
  {
    if parts == [] {
    } else {
      assert parts[0] in parts;
      assert forall p :: p in parts[1..] ==> p in parts;
      NonEmptyAll(parts[1..]);
    }
  }

  /** Reading back what is shown gives the addresses, if none of them contains the separator. */
  lemma PartsOfJoin(addresses: seq<string>)
    requires addresses != [] && forall a :: a in addresses ==> a != "" && Apart(a)
    ensures Parts(Join(addresses, SEP)) == addresses
  {
    forall a | a in addresses ensures Clean(a, SEP) {
      ApartIsClean(a);
    }
    SplitJoin(addresses, SEP);
    NonEmptyAll(addresses);
  }

  lemma JoinIsDash(addresses: seq<string>)
    requires addresses != [] && forall a :: a in addresses ==> a != "" && Apart(a)
    ensures Join(addresses, SEP) == "-" <==> addresses == ["-"]
  {
    PartsOfJoin(addresses);
    if Join(addresses, SEP) == "-" {
      assert Split("-", SEP) == ["-"];
      NonEmptyAll(["-"]);
    }
  }

  // ── Formatting ───────────────────────────────────────────────────────────

  function RealAddresses(addresses: seq<string>): (r: seq<string>)
    ensures forall a :: a in r <==> a in addresses && a != "" && a != "-"
  {
    if addresses == [] then []
    else (if addresses[0] == "" || addresses[0] == "-" then [] else [addresses[0]]) + RealAddresses(addresses[1..])
  }

  function FormatAddresses(addresses: seq<string>): string {
    var shown := SortAddresses(RealAddresses(addresses));
    if shown == [] then "-" else Join(shown, SEP)
  }

  /** A dash is shown exactly when there is no real address; else the real ones can be read back, in order. */
  lemma FormatReadsBack(addresses: seq<string>)
    requires forall a :: a in addresses ==> Apart(a)
    ensures FormatAddresses(addresses) == "-" <==> RealAddresses(addresses) == []
    ensures RealAddresses(addresses) != [] ==>
      Parts(FormatAddresses(addresses)) == SortAddresses(RealAddresses(addresses))
  {
    var listed := RealAddresses(addresses);
    var shown := SortAddresses(listed);
    SortAddressesExact(listed);
    if listed != [] {
      assert listed[0] in shown;
      PartsOfJoin(shown);
      JoinIsDash(shown);
      assert shown == ["-"] ==> "-" in listed;
    }
    hide SortAddresses, Join, Parts, Apart;
  }

  // ── The fallback ─────────────────────────────────────────────────────────

  datatype Item = Item(namespace: string, name: string, ingressClass: string, address: string)

  function ControllerParts(controllers: map<string, string>, className: string): seq<string> {
    if className in controllers && controllers[className] != "-" then Parts(controllers[className]) else []
  }

  predicate Contributes(item: Item, className: string) {
    item.ingressClass == className && item.address != "-"
  }

  function SiblingParts(items: seq<Item>, className: string): seq<string> {
    if items == [] then []
    else
      var last := items[|items| - 1];
      SiblingParts(items[..|items| - 1], className) + if Contributes(last, className) then Parts(last.address) else []
  }

  /** All addresses known for a class. */
  function ClassAddresses(items: seq<Item>, controllers: map<string, string>, className: string): seq<string> {
    SortAddresses(ControllerParts(controllers, className) + SiblingParts(items, className))
  }

  function Filled(item: Item, addresses: seq<string>): Item {
    if item.address == "-" && addresses != [] then item.(address := Join(addresses, SEP)) else item
  }

  function Fallback(items: seq<Item>, controllers: map<string, string>): (r: seq<Item>)
    ensures |r| == |items|
  {
    seq(|items|, i requires 0 <= i < |items| =>
      Filled(items[i], ClassAddresses(items, controllers, items[i].ingressClass)))
  }

  // ── What the fallback does ───────────────────────────────────────────────

  ghost predicate FromSibling(items: seq<Item>, className: string, part: string) {
    exists i :: 0 <= i < |items| && Contributes(items[i], className) && part in Parts(items[i].address)
  }

  lemma {:induction false} SiblingPartsExact(items: seq<Item>, className: string, part: string)
    ensures part in SiblingParts(items, className) <==> FromSibling(items, className, part)
  {
    hide Parts;
    if items == [] {
    } else {
      var init, last := items[..|items| - 1], items[|items| - 1];
      SiblingPartsExact(init, className, part);
      if i :| 0 <= i < |init| && Contributes(init[i], className) && part in Parts(init[i].address) {
        assert items[i] == init[i];
      }
      if i :| 0 <= i < |items| && Contributes(items[i], className) && part in Parts(items[i].address) {
        assert i < |init| ==> items[i] == init[i];
      }
      assert items[|items| - 1] == last;
    }
  }

  /** The addresses of a class: those of its controller and of the ingresses that show some, each once, in order. */
  lemma ClassAddressesExact(items: seq<Item>, controllers: map<string, string>, className: string)
    ensures var known := ClassAddresses(items, controllers, className);
      && StrictlySorted(known, AddressOrder)
      && (forall p :: p in known <==> p in ControllerParts(controllers, className) || FromSibling(items, className, p))
      && (forall p :: p in known ==> p != "" && Apart(p))
  {
    SortAddressesExact(ControllerParts(controllers, className) + SiblingParts(items, className));
    forall p ensures p in SiblingParts(items, className) <==> FromSibling(items, className, p) {
      SiblingPartsExact(items, className, p);
    }
    if className in controllers {
      PartsApart(controllers[className]);
    }
    forall i | 0 <= i < |items| ensures forall p :: p in Parts(items[i].address) ==> p != "" && Apart(p) {
      PartsApart(items[i].address);
    }
    hide SortAddresses, SiblingParts, Parts, Apart;
  }

  /**
   * Only a dash is replaced, and by a string that reads back as the addresses of the class. A dash
   * remains exactly when there is none, or nothing but a literal dash.
   */
  lemma FallbackExact(items: seq<Item>, controllers: map<string, string>, i: nat)
    requires i < |items|
    ensures var before, after := items[i], Fallback(items, controllers)[i];
      var known := ClassAddresses(items, controllers, before.ingressClass);
      && after == before.(address := after.address)
      && (before.address != "-" ==> after == before)
      && (before.address == "-" && known != [] ==> Parts(after.address) == known)
      && (after.address == "-" <==> before.address == "-" && (known == [] || known == ["-"]))
  {
    var known := ClassAddresses(items, controllers, items[i].ingressClass);
    ClassAddressesExact(items, controllers, items[i].ingressClass);
    hide ClassAddresses, Apart, FromSibling, ControllerParts;
    if known != [] {
      PartsOfJoin(known);
      JoinIsDash(known);
    }
    hide Parts, Join;
  }

  /** Filling in addresses does not change what is known about a class. */
  lemma FallbackKeepsClassAddresses(items: seq<Item>, controllers: map<string, string>, className: string)
    ensures ClassAddresses(Fallback(items, controllers), controllers, className)
      == ClassAddresses(items, controllers, className)
  {
    var after := Fallback(items, controllers);
    var known := ClassAddresses(items, controllers, className);
    ClassAddressesExact(items, controllers, className);
    ClassAddressesExact(after, controllers, className);
    forall p ensures p in ClassAddresses(after, controllers, className) <==> p in known {
      if FromSibling(items, className, p) {
        var i :| 0 <= i < |items| && Contributes(items[i], className) && p in Parts(items[i].address);
        FallbackExact(items, controllers, i);
        assert after[i] == items[i];
      }
      if FromSibling(after, className, p) {
        var i :| 0 <= i < |after| && Contributes(after[i], className) && p in Parts(after[i].address);
        FallbackExact(items, controllers, i);
        if items[i].address == "-" {
          assert p in known;
        } else {
          assert after[i] == items[i];
        }
      }
    }
    hide Fallback;
    StrictlySortedUnique(ClassAddresses(after, controllers, className), known, AddressOrder);
  }

  /** A second fallback changes nothing. */
  lemma FallbackIsIdempotent(items: seq<Item>, controllers: map<string, string>)
    ensures Fallback(Fallback(items, controllers), controllers) == Fallback(items, controllers)
  {
    var once := Fallback(items, controllers);
    var twice := Fallback(once, controllers);
    forall i | 0 <= i < |items| ensures twice[i] == once[i] {
      FallbackExact(items, controllers, i);
      FallbackKeepsClassAddresses(items, controllers, items[i].ingressClass);
      hide ClassAddresses, Parts;
      if once[i].address == "-" && ClassAddresses(items, controllers, items[i].ingressClass) != [] {
        assert Join(["-"], SEP) == "-";
      }
    }
  }

  // ── The two phases in place ──────────────────────────────────────────────

  function Known(m: map<string, seq<string>>, className: string): seq<string> {
    if className in m then m[className] else []
  }

  method CollectControllers(controllers: map<string, string>) returns (m: map<string, seq<string>>)
    ensures forall c :: Known(m, c) == ControllerParts(controllers, c)
  {
    hide Parts;
    m := map[];
    var left := controllers.Keys;
    while left != {}
      invariant left <= controllers.Keys
      invariant forall c :: Known(m, c) == if c in left then [] else ControllerParts(controllers, c)
      decreases |left|
    {
      var c :| c in left;
      left := left - {c};
      if controllers[c] == "-" {
        continue;
      }
      m := m[c := Parts(controllers[c])];
    }
  }

  /** One more sibling in the table. */
  function WithSibling(m: map<string, seq<string>>, item: Item): map<string, seq<string>> {
    if item.address == "-" then m else m[item.ingressClass := Known(m, item.ingressClass) + Parts(item.address)]
  }

  lemma OneSibling(m: map<string, seq<string>>, items: seq<Item>, i: nat, c: string, before: seq<string>)
    requires i < |items| && Known(m, c) == before + SiblingParts(items[..i], c)
    ensures Known(WithSibling(m, items[i]), c) == before + SiblingParts(items[..i + 1], c)
  {
    hide Parts;
    assert items[..i + 1][..i] == items[..i];
  }

  method CollectSiblings(items: array<Item>, start: map<string, seq<string>>) returns (m: map<string, seq<string>>)
    ensures forall c :: Known(m, c) == Known(start, c) + SiblingParts(items[..], c)
  {
    m := start;
    assert forall c :: Known(m, c) == Known(start, c) + SiblingParts(items[..0], c);
    hide Parts, SiblingParts, Known;
    for i := 0 to items.Length
      invariant forall c :: Known(m, c) == Known(start, c) + SiblingParts(items[..i], c)
    {
      forall c ensures Known(WithSibling(m, items[i]), c) == Known(start, c) + SiblingParts(items[..i + 1], c) {
        assert items[..][..i] == items[..i] && items[..][..i + 1] == items[..i + 1];
        OneSibling(m, items[..], i, c, Known(start, c));
      }
      var item := items[i];
      if item.address == "-" {
        continue;
      }
      m := m[item.ingressClass := Known(m, item.ingressClass) + Parts(item.address)];
    }
    assert items[..items.Length] == items[..];
  }

  method SortAll(start: map<string, seq<string>>) returns (m: map<string, seq<string>>)
    ensures forall c :: Known(m, c) == SortAddresses(Known(start, c))
  {
    assert SortAddresses([]) == [];
    hide SortAddresses;
    m := start;
    var left := start.Keys;
    while left != {}
      invariant left <= start.Keys == m.Keys
      invariant forall c :: Known(m, c) == if c in left then Known(start, c) else SortAddresses(Known(start, c))
      decreases |left|
    {
      var c :| c in left;
      left := left - {c};
      m := m[c := SortAddresses(m[c])];
    }
  }

  method FillDashes(items: array<Item>, m: map<string, seq<string>>)
    modifies items
    ensures forall j :: 0 <= j < items.Length ==> items[j] == old(Filled(items[j], Known(m, items[j].ingressClass)))
  {
    hide Join;
    for i := 0 to items.Length
      invariant forall j :: 0 <= j < i ==> items[j] == old(Filled(items[j], Known(m, items[j].ingressClass)))
      invariant forall j :: i <= j < items.Length ==> items[j] == old(items[j])
    {
      var item := items[i];
      if item.address != "-" {
        continue;
      }
      if item.ingressClass !in m || m[item.ingressClass] == [] {
        continue;
      }
      items[i] := item.(address := Join(m[item.ingressClass], SEP));
    }
  }

  /** The three tables together are the addresses of the classes. */
  lemma ClassesKnown(items: seq<Item>, controllers: map<string, string>, ofControllers: map<string, seq<string>>,
                     withSiblings: map<string, seq<string>>, sorted: map<string, seq<string>>)
    requires forall c :: Known(ofControllers, c) == ControllerParts(controllers, c)
    requires forall c :: Known(withSiblings, c) == Known(ofControllers, c) + SiblingParts(items, c)
    requires forall c :: Known(sorted, c) == SortAddresses(Known(withSiblings, c))
    ensures forall c :: Known(sorted, c) == ClassAddresses(items, controllers, c)
  {
    hide Known, ControllerParts, SiblingParts, SortAddresses;
    forall c ensures Known(sorted, c) == ClassAddresses(items, controllers, c) {
      assert Known(withSiblings, c) == ControllerParts(controllers, c) + SiblingParts(items, c);
    }
  }

  /** Filling every item gives the fallback. */
  lemma FilledAll(before: seq<Item>, after: seq<Item>, controllers: map<string, string>, m: map<string, seq<string>>)
    requires |after| == |before|
    requires forall c :: Known(m, c) == ClassAddresses(before, controllers, c)
    requires forall j :: 0 <= j < |before| ==> after[j] == Filled(before[j], Known(m, before[j].ingressClass))
    ensures after == Fallback(before, controllers)
  {
    hide Known, ClassAddresses, Filled;
  }

  method ApplyFallback(items: array<Item>, controllers: map<string, string>)
    modifies items
    ensures items[..] == Fallback(old(items[..]), controllers)
  {
    hide *;
    ghost var before := items[..];
    var ofControllers := CollectControllers(controllers);
    var withSiblings := CollectSiblings(items, ofControllers);
    var m := SortAll(withSiblings);
    ClassesKnown(before, controllers, ofControllers, withSiblings, m);
    FillDashes(items, m);
    FilledAll(before, items[..], controllers, m);
  }
}
