/** The catalogue card of an item: the category and condition labels, the
    condition colour, the owner's initials and the borrow button. */
module ItemCard {
  import opened Text
  import opened Seqs
  import opened Enums

  // ---- formatCategory / formatCondition -----------------------------------

  /** `w.charAt(0).toUpperCase() + w.slice(1)`. */
  function Capitalize(w: string): string {
    if |w| == 0 then "" else [UpperChar(w[0])] + w[1..]
  }

  function CapitalizeAll(parts: seq<string>): (r: seq<string>)
    ensures |r| == |parts|
  {
    if |parts| == 0 then [] else [Capitalize(parts[0])] + CapitalizeAll(parts[1..])
  }

  lemma CapitalizeAllCons(a: string, rest: seq<string>)
    ensures CapitalizeAll([a] + rest) == [Capitalize(a)] + CapitalizeAll(rest)
  {
    assert ([a] + rest)[1..] == rest;
  }

  /** A character-by-character reading of the label: `_` becomes a space,
      and a character is upper-cased when it starts a piece. */
  function LabelScan(s: string, atStart: bool): (r: string)
    ensures |r| == |s|
    ensures '_' !in r
  {
    if |s| == 0 then ""
    else if s[0] == '_' then " " + LabelScan(s[1..], true)
    else [if atStart then UpperChar(s[0]) else s[0]] + LabelScan(s[1..], false)
  }

  /** `formatCategory(c)`: split on `_`, capitalise each piece, join with a
      space; e.g. "sports_equipment" becomes "Sports Equipment". */
  function FormatCategory(c: string): (r: string)
    ensures r == LabelScan(c, true)
    ensures |r| == |c| && '_' !in r
  {
    FormatScan(c);
    Join(CapitalizeAll(Split(c, '_')), " ")
  }

  /** `formatCondition` has the same body as `formatCategory`. */
  function FormatCondition(c: string): (r: string)
    ensures r == LabelScan(c, true)
  {
    FormatCategory(c)
  }

  /** A piece with a character in front joins to that character in front. */
  lemma JoinCons(x: char, a: string, rest: seq<string>, sep: string)
    ensures Join([[x] + a] + rest, sep) == [x] + Join([a] + rest, sep)
  {
    if |rest| > 0 {
      assert ([[x] + a] + rest)[1..] == rest;
      assert ([a] + rest)[1..] == rest;
    }
  }

  /** The split-capitalise-join pipeline agrees with the scan, both with
      every piece capitalised and with the first piece left alone. */
  lemma {:induction false} FormatScan(s: string)
    ensures Join(CapitalizeAll(Split(s, '_')), " ") == LabelScan(s, true)
    ensures var p := Split(s, '_'); Join([p[0]] + CapitalizeAll(p[1..]), " ") == LabelScan(s, false)
  {
    if |s| > 0 {
      FormatScan(s[1..]);
      if s[0] == '_' {
        FormatUnderscore(s);
      } else {
        FormatLetter(s);
      }
    }
  }

  /** A leading `_` opens an empty piece, which joins as a leading space. */
  lemma FormatUnderscore(s: string)
    requires |s| > 0 && s[0] == '_'
    ensures var q := Split(s[1..], '_');
      && Join(CapitalizeAll(Split(s, '_')), " ") == " " + Join(CapitalizeAll(q), " ")
      && (var p := Split(s, '_'); Join([p[0]] + CapitalizeAll(p[1..]), " ") == " " + Join(CapitalizeAll(q), " "))
  {
    var q := Split(s[1..], '_');
    var p := Split(s, '_');
    assert p == [""] + q;
    assert p[0] == "" && p[1..] == q;
    var cq := CapitalizeAll(q);
    CapitalizeAllCons("", q);
    assert Capitalize("") == "";
    assert CapitalizeAll(p) == [""] + cq;
    assert [p[0]] + CapitalizeAll(p[1..]) == [""] + cq;
    JoinMore("", cq, " ");
    assert "" + " " + Join(cq, " ") == " " + Join(cq, " ");
  }

  /** A leading letter starts the first piece: upper-cased when the piece is
      capitalised, kept as it is otherwise. */
  lemma FormatLetter(s: string)
    requires |s| > 0 && s[0] != '_'
    ensures var q := Split(s[1..], '_');
      && Join(CapitalizeAll(Split(s, '_')), " ") == [UpperChar(s[0])] + Join([q[0]] + CapitalizeAll(q[1..]), " ")
      && (var p := Split(s, '_'); Join([p[0]] + CapitalizeAll(p[1..]), " ") == [s[0]] + Join([q[0]] + CapitalizeAll(q[1..]), " "))
  {
    var q := Split(s[1..], '_');
    var p := Split(s, '_');
    assert p == [[s[0]] + q[0]] + q[1..];
    assert p[0] == [s[0]] + q[0] && p[1..] == q[1..];
    CapitalizeAllCons([s[0]] + q[0], q[1..]);
    assert Capitalize([s[0]] + q[0]) == [UpperChar(s[0])] + q[0];
    JoinCons(UpperChar(s[0]), q[0], CapitalizeAll(q[1..]), " ");
    JoinCons(s[0], q[0], CapitalizeAll(q[1..]), " ");
  }

  /** A piece in front of a non-empty list joins with one separator. */
  lemma JoinMore(a: string, rest: seq<string>, sep: string)
    requires |rest| > 0
    ensures Join([a] + rest, sep) == a + sep + Join(rest, sep)
  {
    assert ([a] + rest)[1..] == rest;
  }

  // ---- getConditionColor --------------------------------------------------

  const Neutral := "bg-neutral-100 text-neutral-600"

  /** `getConditionColor(condition)`: colours for new, like_new, good, fair
      and poor, the neutral class for anything else. */
  function ConditionColor(condition: string): (c: string)
    ensures condition !in {"new", "like_new", "good", "fair", "poor"} ==> c == Neutral
    ensures condition in {"new", "like_new", "good", "fair", "poor"} ==> c != Neutral
  {
    match condition
    case "new" => "bg-success-soft text-success"
    case "like_new" => "bg-success-soft text-success"
    case "good" => "bg-warning-soft text-warning"
    case "fair" => "bg-warning-soft text-warning"
    case "poor" => "bg-destructive/10 text-destructive"
    case _ => Neutral
  }

  /** Of the four enum conditions only excellent gets the neutral colour. */
  lemma ExcellentIsNeutral(c: ItemCondition)
    ensures ConditionColor(ConditionName(c)) == Neutral <==> c == Excellent
  {
  }

  // ---- getInitials --------------------------------------------------------

  /** `word[0]`, where a missing character joins as nothing. */
  function FirstChar(w: string): string {
    if |w| == 0 then "" else [w[0]]
  }

  function Heads(parts: seq<string>): (r: seq<string>)
    ensures |r| == |parts|
    ensures forall i :: 0 <= i < |parts| ==> r[i] == FirstChar(parts[i])
  {
    seq(|parts|, i requires 0 <= i < |parts| => FirstChar(parts[i]))
  }

  /** The characters that start a space-separated word. */
  function WordStarts(s: string, atStart: bool): string {
    if |s| == 0 then ""
    else if s[0] == ' ' then WordStarts(s[1..], true)
    else (if atStart then [s[0]] else "") + WordStarts(s[1..], false)
  }

  /** The non-empty words of a name. */
  predicate IsWord(w: string) {
    w != ""
  }

  /** `getInitials(name)`: the upper-cased first character of every
      non-empty space-separated word. */
  function Initials(name: string): (r: string)
    ensures r == Upper(WordStarts(name, true))
    ensures |r| == Count(Split(name, ' '), IsWord)
  {
    InitialsScan(name);
    HeadsLength(Split(name, ' '));
    Upper(Join(Heads(Split(name, ' ')), ""))
  }

  /** Joining with the empty separator is concatenation. */
  lemma JoinEmptyCons(a: string, rest: seq<string>)
    ensures Join([a] + rest, "") == a + Join(rest, "")
  {
    if |rest| > 0 {
      assert ([a] + rest)[1..] == rest;
    }
  }

  /** The heads of the words have one character per non-empty word. */
  lemma {:induction false} HeadsLength(parts: seq<string>)
    ensures |Join(Heads(parts), "")| == Count(parts, IsWord)
  {
    if |parts| > 0 {
      HeadsLength(parts[1..]);
      assert Heads(parts) == [FirstChar(parts[0])] + Heads(parts[1..]);
      JoinEmptyCons(FirstChar(parts[0]), Heads(parts[1..]));
    }
  }

  /** Heads of a list with one more piece in front. */
  lemma HeadsCons(a: string, rest: seq<string>)
    ensures Heads([a] + rest) == [FirstChar(a)] + Heads(rest)
  {
  }

  /** The split-head-join pipeline agrees with the scan of word starts, both
      for all pieces and for the pieces after the first. */
  lemma {:induction false} InitialsScan(s: string)
    ensures Join(Heads(Split(s, ' ')), "") == WordStarts(s, true)
    ensures Join(Heads(Split(s, ' ')[1..]), "") == WordStarts(s, false)
  {
    if |s| > 0 {
      InitialsScan(s[1..]);
      if s[0] == ' ' {
        InitialsSpace(s);
      } else {
        InitialsLetter(s);
      }
    }
  }

  /** A leading space opens an empty piece, which has no head. */
  lemma InitialsSpace(s: string)
    requires |s| > 0 && s[0] == ' '
    ensures Split(s, ' ')[1..] == Split(s[1..], ' ')
    ensures Join(Heads(Split(s, ' ')), "") == Join(Heads(Split(s[1..], ' ')), "")
  {
    var q := Split(s[1..], ' ');
    assert Split(s, ' ') == [""] + q;
    HeadsCons("", q);
    JoinEmptyCons("", Heads(q));
  }

  /** A leading letter starts the first piece and is its head. */
  lemma InitialsLetter(s: string)
    requires |s| > 0 && s[0] != ' '
    ensures Split(s, ' ')[1..] == Split(s[1..], ' ')[1..]
    ensures Join(Heads(Split(s, ' ')), "") == [s[0]] + Join(Heads(Split(s[1..], ' ')[1..]), "")
  {
    var q := Split(s[1..], ' ');
    assert Split(s, ' ') == [[s[0]] + q[0]] + q[1..];
    HeadsCons([s[0]] + q[0], q[1..]);
    JoinEmptyCons([s[0]], Heads(q[1..]));
  }

  // ---- Availability -------------------------------------------------------

  datatype CardState = CardState(buttonDisabled: bool, buttonText: string, badge: string)

  /** The borrow button and the status badge follow `is_available`. */
  function Availability(isAvailable: bool): (c: CardState)
    ensures c.buttonDisabled <==> !isAvailable
    ensures c.buttonDisabled <==> c.buttonText == "Unavailable"
    ensures c.buttonDisabled <==> c.badge == "Borrowed"
    ensures !c.buttonDisabled ==> c.buttonText == "Request to Borrow" && c.badge == "Available"
  {
    if isAvailable then CardState(false, "Request to Borrow", "Available")
    else CardState(true, "Unavailable", "Borrowed")
  }
}
