/**
 * The keyboard of the browser client (client/src/piano.js): the 88-key
 * table built at start-up, the labels shown for key codes, and the expiry
 * of the press indicators ("blips") drawn on the keys.
 *
 * The note names come from the client's constants module, which is not part
 * of this model; NOTES is the chromatic scale from C that the key layout
 * implies (it starts at "a", "as", "b" of octave -1 and ends at "c" of
 * octave 7).
 */
module ClientPiano {
  import opened Text
  import opened Codec

  const NOTES: seq<string> := ["c", "cs", "d", "ds", "e", "f", "fs", "g", "gs", "a", "as", "b"]

  /** A press indicator: when it was added and the colour of the player. */
  datatype Blip = Blip(time: int, color: string)

  /** A key of the table. `note` is the name followed by the octave as text.
      The key's sound buffer and its cached `NOTES.indexOf(name)` (which
      nothing here reads; transposition looks the name up again) are not
      modelled. */
  datatype Key = Key(note: string, baseNote: string, octave: int, sharp: bool, blips: seq<Blip>, uid: int)

  /** `Array.prototype.indexOf` on strings. */
  function IndexOf(s: seq<string>, x: string): (i: int)
    ensures -1 <= i < |s|
    ensures i == -1 <==> x !in s
    ensures 0 <= i ==> s[i] == x && x !in s[..i]
  {
    if s == [] then -1
    else if s[0] == x then 0
    else
      var j := IndexOf(s[1..], x);
      if j == -1 then -1 else (assert s[..j + 1] == [s[0]] + s[1..][..j]; j + 1)
  }

  /** The note text of a key: JavaScript's `name + octave`. */
  function NoteText(name: string, octave: int): string {
    name + IntToString(octave)
  }

  /** The key `addPianoKey` creates; `note.includes("s")` is written as
      membership of the character (ContainsChar). */
  function NewKey(uid: int, name: string, octave: int): Key {
    Key(NoteText(name, octave), name, octave, 's' in name, [], uid)
  }

  /** `includes` of a one-character string is membership of the character. */
  lemma ContainsChar(s: string, c: char)
    ensures Contains(s, [c]) <==> c in s
  {
    if c in s {
      var i :| 0 <= i < |s| && s[i] == c;
      assert StartsWith(s[i..], [c]);
    }
    if Contains(s, [c]) {
      var i :| 0 <= i <= |s| - 1 && StartsWith(s[i..], [c]);
      assert s[i] == s[i..][0];
    }
  }

  // ---------------------------------------------------------------------
  // The key table.

  /** `Array.from({ length: n }, (_, o) => NOTES.map(...)).flat()`: the
      (name, octave) pairs of octaves 0 .. n - 1, each in NOTES order. */
  function Octaves(n: nat): (r: seq<(string, int)>)
    ensures |r| == 12 * n
  {
    seq(12 * n, j requires 0 <= j < 12 * n => (NOTES[j % 12], j / 12))
  }

  /** `addPianoKeys`' list of (name, octave) pairs. */
  function Layout(): seq<(string, int)> {
    [("a", -1), ("as", -1), ("b", -1)] + Octaves(7) + [("c", 7)]
  }

  /** The keys `addPianoKey` makes from a layout, each with its position as uid. */
  function KeyRun(layout: seq<(string, int)>): (r: seq<Key>)
    ensures |r| == |layout|
  {
    if layout == [] then []
    else
      var n := |layout| - 1;
      KeyRun(layout[..n]) + [NewKey(n, layout[n].0, layout[n].1)]
  }

  lemma {:induction false} KeyRunAt(layout: seq<(string, int)>, u: nat)
    requires u < |layout|
    ensures KeyRun(layout)[u] == NewKey(u, layout[u].0, layout[u].1)
    decreases |layout|
  {
    var n := |layout| - 1;
    if u < n {
      KeyRunAt(layout[..n], u);
    }
  }

  lemma KeyRunSnoc(all: seq<(string, int)>, i: nat)
    requires i < |all|
    ensures KeyRun(all[..i + 1]) == KeyRun(all[..i]) + [NewKey(i, all[i].0, all[i].1)]
  {
    assert all[..i + 1][..i] == all[..i];
  }

  /** Key u of the layout is note (u + 9) mod 12 of octave (u + 9) div 12 - 1:
      the keyboard runs chromatically from A of octave -1. */
  lemma LayoutAt(u: nat)
    requires u < 88
    ensures |Layout()| == 88
    ensures Layout()[u] == (NOTES[(u + 9) % 12], (u + 9) / 12 - 1)
  {
    var pre: seq<(string, int)> := [("a", -1), ("as", -1), ("b", -1)];
    var mid := Octaves(7);
    var post: seq<(string, int)> := [("c", 7)];
    assert Layout() == pre + mid + post;
    if u < 3 {
      assert Layout()[u] == pre[u];
    } else if u < 87 {
      assert Layout()[u] == mid[u - 3];
      DivModUnique(u + 9, 12, (u - 3) / 12 + 1, (u - 3) % 12);
    } else {
      assert Layout()[u] == post[0];
    }
  }

  /** A name's length and first letter tell the names in NOTES apart. */
  function Tag(s: string): int {
    if s == [] then 0 else 1000 * |s| + s[0] as int
  }

  const TAGS: seq<int> := [1099, 2099, 1100, 2100, 1101, 1102, 2102, 1103, 2103, 1097, 2097, 1098]

  lemma NoteTags()
    ensures forall k :: 0 <= k < 12 ==> Tag(NOTES[k]) == TAGS[k]
  {
  }

  lemma NoteSharp(k: nat)
    requires k < 12
    ensures ('s' in NOTES[k]) <==> k in {1, 3, 6, 8, 10}
  {
  }

  /** In a list whose entries have distinct tags, indexOf finds each entry at its own position. */
  lemma IndexOfDistinct(s: seq<string>, k: nat)
    requires k < |s|
    requires forall j :: 0 <= j < k ==> Tag(s[j]) != Tag(s[k])
    ensures IndexOf(s, s[k]) == k
  {
  }

  lemma NoteLetters()
    ensures forall k, i :: 0 <= k < 12 && 0 <= i < |NOTES[k]| ==> 'a' <= NOTES[k][i] <= 'z'
  {
  }

  /** Two keys named from NOTES have the same note text only when name and
      octave agree: a name is letters only, an octave's text starts with a
      digit or "-". */
  lemma NoteTextInjective(n1: string, o1: int, n2: string, o2: int)
    requires n1 in NOTES && n2 in NOTES
    requires NoteText(n1, o1) == NoteText(n2, o2)
    ensures n1 == n2 && o1 == o2
  {
    NoteLetters();
    var t1, t2 := IntToString(o1), IntToString(o2);
    IntToStringInjective(o1, o2);
    IntToStringInjective(o2, o1);
    JoinAt(n1, t1, n2, t2);
    JoinAt(n2, t2, n1, t1);
    assert n1 == (n1 + t1)[..|n1|] && n2 == (n2 + t2)[..|n2|];
    assert t1 == (n1 + t1)[|n1|..] && t2 == (n2 + t2)[|n2|..];
  }

  /** The character right after a shorter left part of a concatenation. */
  lemma JoinAt(a: string, s: string, b: string, t: string)
    requires |s| >= 1 && a + s == b + t
    ensures |a| < |b| ==> b[|a|] == s[0]
  {
    if |a| < |b| {
      assert (a + s)[|a|] == s[0];
      assert (b + t)[|a|] == b[|a|];
    }
  }

  /** Every note name appears once in NOTES, and the black keys are the names containing "s". */
  lemma NotesIndex(k: nat)
    requires k < 12
    ensures IndexOf(NOTES, NOTES[k]) == k
    ensures ('s' in NOTES[k]) <==> k in {1, 3, 6, 8, 10}
  {
    NoteSharp(k);
    NoteTags();
    assert forall j :: 0 <= j < k ==> TAGS[j] != TAGS[k];
    IndexOfDistinct(NOTES, k);
  }

  /** The table the client builds: 88 keys whose uid is their position, the
      chromatic scale from A of octave -1 to C of octave 7, black exactly on
      the sharps. The uid is 12 * octave + (index of the name in NOTES) + 3. */
  lemma StandardKeys(u: nat)
    requires u < 88
    ensures |KeyRun(Layout())| == 88
    ensures var k := KeyRun(Layout())[u];
      var i := IndexOf(NOTES, k.baseNote);
      k.uid == u && i == (u + 9) % 12 && k.octave == (u + 9) / 12 - 1
      && k.baseNote == NOTES[i] && k.note == NoteText(k.baseNote, k.octave)
      && u == 12 * k.octave + i + 3 && k.blips == []
      && (k.sharp <==> i in {1, 3, 6, 8, 10})
  {
    LayoutAt(u);
    KeyRunAt(Layout(), u);
    NotesIndex((u + 9) % 12);
  }

  // ---------------------------------------------------------------------
  // Key-code labels.

  const SYMBOLS: map<string, string> := map[
    "Equal" := "=", "Minus" := "-", "BracketLeft" := "[", "BracketRight" := "]",
    "Backslash" := "\\", "Semicolon" := ";", "Quote" := "'", "Comma" := ",",
    "Period" := ".", "Slash" := "/", "Backquote" := "`", "Space" := " "]

  /** `codeToChar`: the label of a `KeyboardEvent.code`. */
  function CodeToChar(code: string): string {
    if StartsWith(code, "Key") then LowerAll(code[3..])
    else if StartsWith(code, "Digit") then code[5..]
    else if code in SYMBOLS then SYMBOLS[code]
    else ""
  }

  /** A letter key is labelled with the lower-case letter, a digit key with the digit. */
  lemma LetterAndDigitLabels(c: char)
    ensures 'A' <= c <= 'Z' ==> CodeToChar("Key" + [c]) == [(c as int + 32) as char]
    ensures '0' <= c <= '9' ==> CodeToChar("Digit" + [c]) == [c]
  {
    assert ("Key" + [c])[3..] == [c];
    assert ("Digit" + [c])[5..] == [c];
    if '0' <= c <= '9' {
      assert !StartsWith("Digit" + [c], "Key") by {
        assert ("Digit" + [c])[0] == 'D';
      }
    }
  }

  /** Every listed symbol code gets its one-character label; a code that is
      neither listed nor starts with "Key" or "Digit" gets none. */
  lemma SymbolLabels(code: string)
    ensures code in SYMBOLS ==> |CodeToChar(code)| == 1 && CodeToChar(code) == SYMBOLS[code]
    ensures code !in SYMBOLS && !StartsWith(code, "Key") && !StartsWith(code, "Digit") ==> CodeToChar(code) == ""
  {
    if code in SYMBOLS {
      assert code[0] != 'K' && code[0] != 'D';
      assert !StartsWith(code, "Key") && !StartsWith(code, "Digit") by {
        assert |code| >= 3;
      }
    }
  }

  // ---------------------------------------------------------------------
  // Blip expiry.

  const FADE_MS := 1000

  /** `key.blips.filter(...)`: the blips at most FADE_MS old at `now`, in order. */
  function Live(bs: seq<Blip>, now: int): (r: seq<Blip>)
    ensures |r| <= |bs|
    ensures forall b :: b in r <==> b in bs && now - b.time <= FADE_MS
  {
    if bs == [] then []
    else (if now - bs[0].time <= FADE_MS then [bs[0]] else []) + Live(bs[1..], now)
  }

  /** Filtering again later keeps exactly what a single later filter keeps;
      in particular the filter is idempotent. */
  lemma {:induction false} LiveLater(bs: seq<Blip>, t1: int, t2: int)
    requires t1 <= t2
    ensures Live(Live(bs, t1), t2) == Live(bs, t2)
    decreases |bs|
  {
    if bs != [] {
      LiveLater(bs[1..], t1, t2);
      var head := if t1 - bs[0].time <= FADE_MS then [bs[0]] else [];
      var r := Live(bs[1..], t1);
      if head == [] {
        assert Live(bs, t1) == r;
      } else {
        assert (head + r)[1..] == r;
      }
    }
  }

  /** A key after one pass of `drawBlips` over the keys of one colour. */
  function Swept(k: Key, now: int, isSharp: bool): Key {
    if k.sharp == isSharp then k.(blips := Live(k.blips, now)) else k
  }

  class Keyboard {
    var keys: seq<Key>

    constructor ()
      ensures keys == []
    {
      keys := [];
    }

    /** `addPianoKey`: the new key goes to the end of the table. */
    method AddPianoKey(uid: int, name: string, octave: int)
      modifies this
      ensures keys == old(keys) + [NewKey(uid, name, octave)]
    {
      keys := keys + [NewKey(uid, name, octave)];
    }

    /** `addPianoKeys`: one key per layout entry, its position as uid. */
    method AddPianoKeys()
      modifies this
      ensures keys == old(keys) + KeyRun(Layout())
    {
      AddLayout(Layout());
    }

    /** The loop of `addPianoKeys` over the entries of its layout. */
    method AddLayout(all: seq<(string, int)>)
      modifies this
      ensures keys == old(keys) + KeyRun(all)
    {
      for i := 0 to |all|
        invariant keys == old(keys) + KeyRun(all[..i])
      {
        KeyRunSnoc(all, i);
        AddPianoKey(i, all[i].0, all[i].1);
      }
      assert all[..|all|] == all;
    }

    /** `drawBlips`' bookkeeping: every key of the given colour keeps only
        its live blips; the other keys are untouched. */
    method DrawBlips(now: int, isSharp: bool)
      modifies this
      ensures |keys| == |old(keys)|
      ensures forall i :: 0 <= i < |keys| ==> keys[i] == Swept(old(keys)[i], now, isSharp)
    {
      var i := 0;
      while i < |keys|
        invariant 0 <= i <= |keys| == |old(keys)|
        invariant forall j :: 0 <= j < i ==> keys[j] == Swept(old(keys)[j], now, isSharp)
        invariant forall j :: i <= j < |keys| ==> keys[j] == old(keys)[j]
      {
        if keys[i].sharp == isSharp {
          keys := keys[i := keys[i].(blips := Live(keys[i].blips, now))];
        }
        i := i + 1;
      }
    }
  }
}
