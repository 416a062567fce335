/**
 * The chat filter's pattern builder `leetPattern` (client/src/utils.js):
 * every character becomes a regular-expression group matching its common
 * look-alikes, groups are separated by a run of non-word characters, and a
 * backslash escape is copied through untouched.
 */
module Leet {
  import opened Text

  const Separator: string := "[\\s\\W]*"
  const MappedLetters: string := "abegiostlzcxqyu"

  /** The look-alike class of an already lower-cased character. */
  function CharClass(c: char): (r: string)
    ensures c !in MappedLetters ==> r == [c]
    ensures c in MappedLetters ==> |r| >= 3 && r[0] == '[' && r[|r| - 1] == ']' && c in r
  {
    match c
    case 'a' => "[4a@]"
    case 'b' => "[8b]"
    case 'e' => "[3e]"
    case 'g' => "[9g6]"
    case 'i' => "[1li!]"
    case 'o' => "[0o]"
    case 's' => "[5s$]"
    case 't' => "[7t+]"
    case 'l' => "[1l|]"
    case 'z' => "[2z]"
    case 'c' => "[c<]"
    case 'x' => "[x*]"
    case 'q' => "[q9]"
    case 'y' => "[y7]"
    case 'u' => "[uv]"
    case _ => [c]
  }

  function Group(c: char): string {
    "(" + CharClass(AsciiLower(c)) + ")+"
  }

  /** The groups the scan produces, in order. */
  function Groups(t: string): seq<string>
    decreases |t|
  {
    if t == [] then []
    else if t[0] == '\\' && 1 < |t| then ["\\" + [t[1]]] + Groups(t[2..])
    else [Group(t[0])] + Groups(t[1..])
  }

  method LeetPattern(text: string) returns (pattern: string)
    ensures pattern == Join(Groups(text), Separator)
  {
    var result: seq<string> := [];
    var i := 0;
    while i < |text|
      invariant 0 <= i <= |text|
      invariant result + Groups(text[i..]) == Groups(text)
    {
      var next: nat;
      var g: string;
      if text[i] == '\\' && i + 1 < |text| {
        g, next := "\\" + [text[i + 1]], i + 2;
      } else {
        g, next := Group(text[i]), i + 1;
      }
      GroupsStep(text, i);
      assert (result + [g]) + Groups(text[next..]) == result + ([g] + Groups(text[next..]));
      result := result + [g];
      i := next;
    }
    assert Groups(text[i..]) == [];
    assert result == Groups(text);
    pattern := Join(result, Separator);
  }

  /** One step of the scan, starting at index i. */
  lemma GroupsStep(text: string, i: nat)
    requires i < |text|
    ensures text[i] == '\\' && i + 1 < |text| ==>
      Groups(text[i..]) == ["\\" + [text[i + 1]]] + Groups(text[i + 2..])
    ensures !(text[i] == '\\' && i + 1 < |text|) ==>
      Groups(text[i..]) == [Group(text[i])] + Groups(text[i + 1..])
  {
    var rest := text[i..];
    if text[i] == '\\' && i + 1 < |text| {
      assert rest[2..] == text[i + 2..];
    } else {
      assert rest[1..] == text[i + 1..];
    }
  }

  /** Without escape pairs, character k becomes exactly group k. */
  lemma {:induction false} PlainTextGroups(t: string)
    requires forall i :: 0 <= i < |t| - 1 ==> t[i] != '\\'
    ensures |Groups(t)| == |t|
    ensures forall k :: 0 <= k < |t| ==> Groups(t)[k] == Group(t[k])
  {
    if t != [] {
      PlainTextGroups(t[1..]);
    }
  }

  /** Every escape pair shortens the group list by one: the list is exactly as
      long as the text iff no backslash stands before another character, and
      never shorter than half of it. */
  lemma {:induction false} GroupCount(t: string)
    ensures |t| <= 2 * |Groups(t)|
    ensures |Groups(t)| <= |t|
    ensures |Groups(t)| == |t| <==> forall i :: 0 <= i < |t| - 1 ==> t[i] != '\\'
  {
    if t == [] {
    } else if t[0] == '\\' && 1 < |t| {
      GroupCount(t[2..]);
    } else {
      GroupCount(t[1..]);
      if |Groups(t)| == |t| {
        forall i | 0 <= i < |t| - 1
          ensures t[i] != '\\'
        {
          if i > 0 {
            assert t[1..][i - 1] == t[i];
          }
        }
      } else {
        var j :| 0 <= j < |t[1..]| - 1 && t[1..][j] == '\\';
        assert t[j + 1] == '\\';
      }
    }
  }

  /** Letters are matched case-insensitively: lowering the text first changes nothing. */
  lemma {:induction false} CaseInsensitive(t: string)
    requires '\\' !in t
    ensures Groups(LowerAll(t)) == Groups(t)
  {
    if t != [] {
      assert LowerAll(t)[1..] == LowerAll(t[1..]);
      assert t[0] in t;
      assert forall c :: c in t[1..] ==> c in t;
      CaseInsensitive(t[1..]);
    }
  }
}
