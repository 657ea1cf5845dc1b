/**
 * The trainer-name extractor that both the sign-up and the forgotten-PIN
 * screens apply to the text read from an uploaded screenshot: the text is cut
 * into stripped, non-empty lines, and the first line that is not interface
 * chrome, carries no label punctuation and looks like a name is the
 * candidate; when none does, the candidate is the placeholder "Unknown".
 */
module NameExtractor {
  import opened Wrappers
  import opened Text

  /** Upper-case words of the game's interface; "RIENDS" catches misread
      forms of "FRIENDS". */
  const Denylist: seq<string> :=
    ["FRIENDS", "RIENDS", "PARTY", "STYLE", "SCRAPBOOK", "JOURNAL", "BUDDY", "HISTORY"]

  /** Characters that mark a line as a label or a statistic. */
  const Punctuation: seq<char> := [',', '/', ':', '%']

  /** The candidate when no line qualifies. */
  const UnknownName: string := "Unknown"

  /** The stripped pieces that are not empty, in their original order. */
  function KeepStripped(pieces: seq<string>): (lines: seq<string>)
    ensures |lines| <= |pieces|
  {
    if pieces == [] then [] else Kept(pieces[0]) + KeepStripped(pieces[1..])
  }

  /** What one piece contributes: its stripped form, unless that is empty. */
  function Kept(piece: string): seq<string>
  {
    if Strip(piece) != [] then [Strip(piece)] else []
  }

  /** The stripped, non-empty pieces of the text cut at line feeds, in order. */
  function PrepareLines(text: string): seq<string>
  {
    KeepStripped(Split(text, '\n'))
  }

  /** Every prepared line is stripped and not empty. */
  lemma {:induction false} KeepStrippedLines(pieces: seq<string>)
    ensures forall k :: 0 <= k < |KeepStripped(pieces)| ==>
      KeepStripped(pieces)[k] != [] && IsStripped(KeepStripped(pieces)[k])
  {
    if pieces != [] {
      KeepStrippedLines(pieces[1..]);
    }
  }

  /** Line preparation keeps the order of the text: preparing two runs of
      pieces one after the other gives the two results one after the other. */
  lemma {:induction false} KeepStrippedAppend(a: seq<string>, b: seq<string>)
    ensures KeepStripped(a + b) == KeepStripped(a) + KeepStripped(b)
  {
    if a == [] {
      assert a + b == b;
    } else {
      calc {
        KeepStripped(a + b);
        { assert (a + b)[0] == a[0] && (a + b)[1..] == a[1..] + b; }
        Kept(a[0]) + KeepStripped(a[1..] + b);
        { KeepStrippedAppend(a[1..], b); }
        Kept(a[0]) + (KeepStripped(a[1..]) + KeepStripped(b));
        (Kept(a[0]) + KeepStripped(a[1..])) + KeepStripped(b);
        KeepStripped(a) + KeepStripped(b);
      }
    }
  }

  /** The stripped form of a piece is kept when it is not empty. */
  lemma {:induction false} StrippedPieceKept(pieces: seq<string>, i: nat)
    requires i < |pieces| && Strip(pieces[i]) != []
    ensures Strip(pieces[i]) in KeepStripped(pieces)
  {
    var line := Strip(pieces[i]);
    assert KeepStripped(pieces) == Kept(pieces[0]) + KeepStripped(pieces[1..]);
    if i == 0 {
      assert Kept(pieces[0]) == [line];
    } else {
      assert pieces[1..][i - 1] == pieces[i];
      StrippedPieceKept(pieces[1..], i - 1);
      assert line in KeepStripped(pieces[1..]);
    }
  }

  /** Every kept line is the stripped form of some piece, and is not empty. */
  lemma {:induction false} KeptLineFromPiece(pieces: seq<string>, line: string)
    requires line in KeepStripped(pieces)
    ensures line != [] && exists i :: 0 <= i < |pieces| && Strip(pieces[i]) == line
  {
    if line in Kept(pieces[0]) {
      assert Strip(pieces[0]) == line;
    } else {
      KeptLineFromPiece(pieces[1..], line);
      var i :| 0 <= i < |pieces[1..]| && Strip(pieces[1..][i]) == line;
      assert Strip(pieces[i + 1]) == line;
    }
  }

  /** A line is kept exactly when it is the stripped form of some piece and
      is not empty. */
  lemma KeepStrippedMembers(pieces: seq<string>, line: string)
    ensures line in KeepStripped(pieces) <==>
      line != [] && exists i :: 0 <= i < |pieces| && Strip(pieces[i]) == line
  {
    if line in KeepStripped(pieces) {
      KeptLineFromPiece(pieces, line);
    }
    if line != [] && exists i :: 0 <= i < |pieces| && Strip(pieces[i]) == line {
      var i :| 0 <= i < |pieces| && Strip(pieces[i]) == line;
      StrippedPieceKept(pieces, i);
    }
  }

  /** The upper-cased line contains one of the denylisted words. */
  predicate Denied(upperLine: string) {
    exists k :: 0 <= k < |Denylist| && Contains(upperLine, Denylist[k])
  }

  /** The line contains one of the punctuation characters. */
  predicate HasPunctuation(line: string) {
    exists k :: 0 <= k < |Punctuation| && Punctuation[k] in line
  }

  /** Alphanumeric once its spaces are removed, and longer than two
      characters (spaces included). */
  predicate LooksLikeName(line: string) {
    IsAlnum(RemoveSpaces(line)) && |line| > 2
  }

  /** The line passes all three tests of the selection loop. */
  predicate Accepted(line: string) {
    !Denied(ToUpper(line)) && !HasPunctuation(line) && LooksLikeName(line)
  }

  /** The first accepted line at position `from` or later. */
  function FirstAcceptedFrom(lines: seq<string>, from: nat): (r: Option<nat>)
    requires from <= |lines|
    ensures r.Some? ==>
              && from <= r.value < |lines|
              && Accepted(lines[r.value])
              && forall j :: from <= j < r.value ==> !Accepted(lines[j])
    ensures r.None? ==> forall j :: from <= j < |lines| ==> !Accepted(lines[j])
    decreases |lines| - from
  {
    if from == |lines| then None
    else if Accepted(lines[from]) then Some(from)
    else FirstAcceptedFrom(lines, from + 1)
  }

  /** The position of the first accepted line, if there is one. */
  function FirstAccepted(lines: seq<string>): (r: Option<nat>)
    ensures r.Some? ==>
              && r.value < |lines|
              && Accepted(lines[r.value])
              && forall j :: 0 <= j < r.value ==> !Accepted(lines[j])
    ensures r.None? ==> forall j :: 0 <= j < |lines| ==> !Accepted(lines[j])
  {
    FirstAcceptedFrom(lines, 0)
  }

  /** The line the selection loop settles on. */
  function Choose(lines: seq<string>): string
  {
    match FirstAccepted(lines)
    case Some(k) => lines[k]
    case None => UnknownName
  }

  /** The candidate name for the text of a screenshot. */
  function CandidateName(text: string): string
  {
    Choose(PrepareLines(text))
  }

  /** What the candidate is: either an accepted prepared line preceded only by
      lines that fail a test, or "Unknown" when every prepared line fails. */
  lemma CandidateNameSpec(text: string)
    ensures var lines := PrepareLines(text);
      var name := CandidateName(text);
      || (name == UnknownName && forall j :: 0 <= j < |lines| ==> !Accepted(lines[j]))
      || exists k :: 0 <= k < |lines| && lines[k] == name && Accepted(name)
           && forall j :: 0 <= j < k ==> !Accepted(lines[j])
  {
    var lines := PrepareLines(text);
    match FirstAccepted(lines)
    case Some(k) =>
      assert lines[k] == CandidateName(text);
    case None =>
  }

  /** What the selection settles on: "Unknown", or an accepted line of the
      input; and "Unknown" whenever no line is accepted. */
  lemma ChooseSpec(lines: seq<string>)
    ensures Choose(lines) == UnknownName || Choose(lines) in lines
    ensures Choose(lines) != UnknownName ==> Accepted(Choose(lines))
    ensures (forall j :: 0 <= j < |lines| ==> !Accepted(lines[j])) ==> Choose(lines) == UnknownName
  {
  }

  /** The selection loop over the prepared lines: skip denylisted lines and
      lines with punctuation, take the first line that looks like a name. */
  method SelectTrainerName(lines: seq<string>) returns (name: string)
    ensures name == Choose(lines)
    ensures name == UnknownName || name in lines
    ensures name != UnknownName ==> Accepted(name)
    ensures (forall j :: 0 <= j < |lines| ==> !Accepted(lines[j])) ==> name == UnknownName
  {
    name := UnknownName;
    ghost var taken: Option<nat> := None;
    for i := 0 to |lines|
      invariant name == UnknownName && taken.None?
      invariant forall j :: 0 <= j < i ==> !Accepted(lines[j])
    {
      var line := lines[i];
      var upperLine := ToUpper(line);
      if Denied(upperLine) {
        continue;
      }
      if HasPunctuation(line) {
        continue;
      }
      if IsAlnum(RemoveSpaces(line)) && |line| > 2 {
        name := line;
        taken := Some(i);
        break;
      }
    }
    assert name == Choose(lines) by {
      match taken
      case Some(k) =>
        assert Accepted(lines[k]);
      case None =>
    }
    ChooseSpec(lines);
  }

  /** Prepares the lines of the text and selects the candidate among them. */
  method ExtractTrainerName(text: string) returns (name: string)
    ensures name == CandidateName(text)
    ensures name == UnknownName || name in PrepareLines(text)
    ensures name != UnknownName ==> Accepted(name) && name != [] && IsStripped(name)
  {
    var lines := PrepareLines(text);
    name := SelectTrainerName(lines);
    KeepStrippedLines(Split(text, '\n'));
  }

  /** "AshKetchum99" contains none of the denylisted words. */
  lemma SampleNameNotDenied()
    ensures !Denied(ToUpper("AshKetchum99"))
  {
    var up := ToUpper("AshKetchum99");
    assert up == "ASHKETCHUM99";
    forall k | 0 <= k < |Denylist|
      ensures !Contains(up, Denylist[k])
    {
      forall i | 0 <= i <= |up| - |Denylist[k]|
        ensures !OccursAt(up, Denylist[k], i)
      {
        assert up[i] != Denylist[k][0] || up[i + 1] != Denylist[k][1];
      }
    }
  }

  /** "AshKetchum99" passes all three tests. */
  lemma SampleNameAccepted()
    ensures Accepted("AshKetchum99")
  {
    var s := "AshKetchum99";
    SampleNameNotDenied();
    assert ' ' !in s && IsAlnum(s) by {
      forall k | 0 <= k < |s|
        ensures s[k] != ' ' && IsAlnumChar(s[k])
      {
      }
    }
    RemoveSpacesNoSpace(s);
    AlnumHasNoPunctuation(s);
  }

  /** A string of letters and digits has none of the punctuation marks. */
  lemma AlnumHasNoPunctuation(s: string)
    requires IsAlnum(s)
    ensures !HasPunctuation(s)
  {
    forall k | 0 <= k < |Punctuation|
      ensures Punctuation[k] !in s
    {
      assert !IsAlnumChar(Punctuation[k]);
    }
  }

  /** The interface words and the punctuated line are passed over. */
  lemma SampleChromeRejected()
    ensures !Accepted("Friends") && !Accepted("Journal") && !Accepted("A,B/C")
  {
    assert Denied(ToUpper("Friends")) by {
      assert ToUpper("Friends") == "FRIENDS";
      assert OccursAt("FRIENDS", Denylist[0], 0);
    }
    assert Denied(ToUpper("Journal")) by {
      assert ToUpper("Journal") == "JOURNAL";
      assert OccursAt("JOURNAL", Denylist[5], 0);
    }
    assert HasPunctuation("A,B/C") by {
      assert Punctuation[0] == "A,B/C"[1];
    }
  }

  /** A sample screenshot: the first two lines are interface words and the
      third carries punctuation, so the fourth is taken and the too-short
      fifth is never looked at. */
  lemma SampleScreenshot()
    ensures Choose(["Friends", "Journal", "A,B/C", "AshKetchum99", "xy"]) == "AshKetchum99"
  {
    var lines := ["Friends", "Journal", "A,B/C", "AshKetchum99", "xy"];
    SampleChromeRejected();
    SampleNameAccepted();
    assert !Accepted(lines[0]) && !Accepted(lines[1]) && !Accepted(lines[2]);
    assert Accepted(lines[3]);
    assert FirstAccepted(lines) == Some(3);
  }
}
