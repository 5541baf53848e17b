/** Faces, suits and the name lookup behind make_card (callbreak_card.py). */
module Cards {
  import opened Errors
  import opened Arith

  /** A face: its printed name and its rank (2..14, ace highest). */
  datatype Face = Face(name: string, value: int)

  /** The bucket index of a suit in a hand. */
  type Bucket = i: nat | i < 4

  /**
   * A suit, as the four entries of the suit table: its name, its rank across suits (spade 2,
   * the rest 1) and its bucket index in a hand.
   */
  datatype Suit = Spade | Heart | Club | Diamond {
    const name: string :=
      match this case Spade => "spade" case Heart => "heart" case Club => "club" case Diamond => "diamond"
    const value: int := if this == Spade then 2 else 1
    const order: Bucket := match this case Spade => 0 case Heart => 1 case Club => 2 case Diamond => 3
  }

  /** The face table, in the order the source builds it: ace, 2..10, jack, queen, king. */
  const Faces: seq<Face> := [
    Face("A", 14), Face("2", 2), Face("3", 3), Face("4", 4), Face("5", 5),
    Face("6", 6), Face("7", 7), Face("8", 8), Face("9", 9), Face("10", 10),
    Face("J", 11), Face("Q", 12), Face("K", 13)
  ]

  /** The suit table: spade is trump and owns bucket 0. */
  const Suits: seq<Suit> := [Spade, Heart, Club, Diamond]

  lemma FacesTable()
    ensures |Faces| == 13
    ensures forall i, j :: 0 <= i < j < 13 ==> Faces[i].name != Faces[j].name && Faces[i].value != Faces[j].value
    ensures forall i :: 0 <= i < 13 ==> 2 <= Faces[i].value <= 14
  {
    assert Faces[0].value == 14 && Faces[1].value == 2 && Faces[2].value == 3;
    assert Faces[3].value == 4 && Faces[4].value == 5 && Faces[5].value == 6;
    assert Faces[6].value == 7 && Faces[7].value == 8 && Faces[8].value == 9;
    assert Faces[9].value == 10 && Faces[10].value == 11 && Faces[11].value == 12;
    assert Faces[12].value == 13;
  }

  lemma SuitsTable()
    ensures |Suits| == 4
    ensures forall i :: 0 <= i < 4 ==> Suits[i].order == i
    ensures forall i, j :: 0 <= i < j < 4 ==> Suits[i].name != Suits[j].name
    ensures forall s: Suit :: s in Suits && Suits[s.order] == s
  {
    forall s: Suit ensures s in Suits && Suits[s.order] == s {
      match s
      case Spade => assert Suits[0] == s;
      case Heart => assert Suits[1] == s;
      case Club => assert Suits[2] == s;
      case Diamond => assert Suits[3] == s;
    }
  }

  /** Every suit is a table suit and sits at its own bucket index. */
  lemma SuitAtOrder(s: Suit)
    ensures s in Suits && Suits[s.order] == s
  {
    SuitsTable();
  }

  /** Suits are told apart by name, and by bucket index, as the source compares them. */
  lemma SuitIdentity(s: Suit, t: Suit)
    ensures s.name == t.name <==> s == t
    ensures s.order == t.order <==> s == t
  {
  }

  // ---------------------------------------------------------------------------
  // ASCII case mapping, as str.upper() / str.lower() act on the names used here

  function UpperChar(c: char): char {
    if 'a' <= c <= 'z' then (c as int - 32) as char else c
  }

  function LowerChar(c: char): char {
    if 'A' <= c <= 'Z' then (c as int + 32) as char else c
  }

  function Upper(s: string): (r: string)
    ensures |r| == |s| && forall i :: 0 <= i < |s| ==> r[i] == UpperChar(s[i])
  {
    if s == [] then [] else [UpperChar(s[0])] + Upper(s[1..])
  }

  function Lower(s: string): (r: string)
    ensures |r| == |s| && forall i :: 0 <= i < |s| ==> r[i] == LowerChar(s[i])
  {
    if s == [] then [] else [LowerChar(s[0])] + Lower(s[1..])
  }

  // ---------------------------------------------------------------------------
  // The table search of make_card: the first entry whose name matches

  function FirstNamed<T>(xs: seq<T>, nameOf: T -> string, name: string): (r: Option<nat>)
    ensures r.Some? <==> exists i :: 0 <= i < |xs| && nameOf(xs[i]) == name
    ensures r.Some? ==> r.value < |xs| && nameOf(xs[r.value]) == name
                        && forall i :: 0 <= i < r.value ==> nameOf(xs[i]) != name
  {
    if xs == [] then None
    else if nameOf(xs[0]) == name then Some(0)
    else match FirstNamed(xs[1..], nameOf, name)
      case None => (assert forall i :: 1 <= i < |xs| ==> xs[i] == xs[1..][i - 1]; None)
      case Some(k) => Some(k + 1)
  }

  /** The face half of make_card: the name is upper-cased, then looked up. */
  function LookupFace(face: string): (r: Result<Face>)
    ensures r.Ok? <==> exists i :: 0 <= i < |Faces| && Faces[i].name == Upper(face)
    ensures r.Ok? ==> r.value in Faces && r.value.name == Upper(face)
    ensures r.Err? ==> r.error == InvalidFace(Upper(face))
  {
    match FirstNamed(Faces, (f: Face) => f.name, Upper(face))
    case None => Err(InvalidFace(Upper(face)))
    case Some(i) => Ok(Faces[i])
  }

  /** The suit half of make_card: the name is lower-cased, then looked up. */
  function LookupSuit(suit: string): (r: Result<Suit>)
    ensures r.Ok? <==> exists i :: 0 <= i < |Suits| && Suits[i].name == Lower(suit)
    ensures r.Ok? ==> r.value in Suits && r.value.name == Lower(suit)
    ensures r.Err? ==> r.error == InvalidSuit(Lower(suit))
  {
    match FirstNamed(Suits, (s: Suit) => s.name, Lower(suit))
    case None => Err(InvalidSuit(Lower(suit)))
    case Some(i) => Ok(Suits[i])
  }

  /** make_card's validation: the face is checked first, so a bad face wins over a bad suit. */
  function CheckCard(face: string, suit: string): (r: Result<(Face, Suit)>)
    ensures r.Ok? <==> LookupFace(face).Ok? && LookupSuit(suit).Ok?
    ensures r.Ok? ==> r.value == (LookupFace(face).value, LookupSuit(suit).value)
    ensures LookupFace(face).Err? ==> r == Err(InvalidFace(Upper(face)))
    ensures LookupFace(face).Ok? && LookupSuit(suit).Err? ==> r == Err(InvalidSuit(Lower(suit)))
  {
    match LookupFace(face)
    case Err(e) => Err(e)
    case Ok(f) =>
      match LookupSuit(suit)
      case Err(e) => Err(e)
      case Ok(s) => Ok((f, s))
  }

  /** The table names need no case folding: faces are upper case or digits, suits lower case. */
  lemma TableNamesFolded()
    ensures forall i :: 0 <= i < |Faces| ==> Upper(Faces[i].name) == Faces[i].name
    ensures forall i :: 0 <= i < |Suits| ==> Lower(Suits[i].name) == Suits[i].name
  {
    forall i | 0 <= i < |Faces| ensures Upper(Faces[i].name) == Faces[i].name {
      var n := Faces[i].name;
      assert forall k :: 0 <= k < |n| ==> !('a' <= n[k] <= 'z');
    }
    forall i | 0 <= i < |Suits| ensures Lower(Suits[i].name) == Suits[i].name {
      var n := Suits[i].name;
      assert forall k :: 0 <= k < |n| ==> !('A' <= n[k] <= 'Z');
    }
  }

  /** Every table name is found again, and it finds its own entry. */
  lemma LookupRoundTrip(fi: nat, si: nat)
    requires fi < |Faces| && si < |Suits|
    ensures LookupFace(Faces[fi].name) == Ok(Faces[fi])
    ensures LookupSuit(Suits[si].name) == Ok(Suits[si])
  {
    FacesTable();
    SuitsTable();
    TableNamesFolded();
    var f := LookupFace(Faces[fi].name);
    assert f.Ok?;
    var s := LookupSuit(Suits[si].name);
    assert s.Ok?;
  }

  lemma CaseFolding(c: char)
    ensures UpperChar(LowerChar(c)) == UpperChar(c)
    ensures LowerChar(UpperChar(c)) == LowerChar(c)
  {
  }

  /** Names are matched whatever their case: "k" is the king and "SPADE" the spade. */
  lemma LookupIgnoresCase(face: string, suit: string)
    ensures LookupFace(Lower(face)) == LookupFace(face)
    ensures LookupSuit(Upper(suit)) == LookupSuit(suit)
  {
    forall i | 0 <= i < |face| ensures Upper(Lower(face))[i] == Upper(face)[i] {
      CaseFolding(face[i]);
    }
    assert Upper(Lower(face)) == Upper(face);
    forall i | 0 <= i < |suit| ensures Lower(Upper(suit))[i] == Lower(suit)[i] {
      CaseFolding(suit[i]);
    }
    assert Lower(Upper(suit)) == Lower(suit);
  }

  // ---------------------------------------------------------------------------
  // The deck layout of Deck.load: every face of the first suit, then the next suit, ...

  /** Entry i of the layout: face i % 13 of suit i / 13. */
  function LayoutAt(i: nat): (Face, Suit)
    requires i < 52
  {
    (Faces[i % 13], Suits[i / 13])
  }

  /** Position 13 * si + fi of the layout holds face fi of suit si. */
  lemma LayoutPosition(si: nat, fi: nat)
    requires si < 4 && fi < 13
    ensures 13 * si + fi < 52 && LayoutAt(13 * si + fi) == (Faces[fi], Suits[si])
  {
    DivUnique(13 * si + fi, 13, si, fi);
  }

  /** No (face, suit) pair occurs twice in the layout. */
  lemma LayoutDistinct(i: nat, j: nat)
    requires i < j < 52
    ensures LayoutAt(i) != LayoutAt(j)
  {
    FacesTable();
    SuitsTable();
    DivUnique(i, 13, i / 13, i % 13);
    DivUnique(j, 13, j / 13, j % 13);
    if i / 13 == j / 13 {
      assert i % 13 != j % 13;
      assert Faces[i % 13].value != Faces[j % 13].value;
    } else {
      assert Suits[i / 13].order != Suits[j / 13].order;
    }
  }

  /** The cards of suit si fill positions 13 * si to 13 * si + 12. */
  lemma LayoutSuit(si: nat, i: nat)
    requires si < 4 && i < 52
    ensures LayoutAt(i).1 == Suits[si] <==> 13 * si <= i < 13 * si + 13
  {
    SuitsTable();
    DivUnique(i, 13, i / 13, i % 13);
    if i / 13 != si {
      assert Suits[i / 13].order != Suits[si].order;
      if i / 13 < si {
        assert i < 13 * (i / 13) + 13 <= 13 * si;
      } else {
        assert i >= 13 * (i / 13) >= 13 * si + 13;
      }
    }
  }

  /** The layout is the 52 distinct pairs, each suit's 13 faces in one block. */
  lemma DeckLayoutFacts()
    ensures forall i, j :: 0 <= i < j < 52 ==> LayoutAt(i) != LayoutAt(j)
    ensures forall si, fi :: 0 <= si < 4 && 0 <= fi < 13 ==> LayoutAt(13 * si + fi) == (Faces[fi], Suits[si])
    ensures forall si, i :: 0 <= si < 4 && 0 <= i < 52 ==>
              (LayoutAt(i).1 == Suits[si] <==> 13 * si <= i < 13 * si + 13)
  {
    forall i, j | 0 <= i < j < 52 ensures LayoutAt(i) != LayoutAt(j) {
      LayoutDistinct(i, j);
    }
    forall si, fi | 0 <= si < 4 && 0 <= fi < 13 ensures LayoutAt(13 * si + fi) == (Faces[fi], Suits[si]) {
      LayoutPosition(si, fi);
    }
    forall si, i | 0 <= si < 4 && 0 <= i < 52 ensures LayoutAt(i).1 == Suits[si] <==> 13 * si <= i < 13 * si + 13 {
      LayoutSuit(si, i);
    }
  }
}
