/**
 * The judge editor (src/components/EditableJudgePanel.tsx): a dialog that loads one judge's
 * name and role, and on save hands the parent a copy of the panel with that one judge renamed
 * and its initials recomputed.
 */
module JudgePanel {
  import opened Wrappers
  import opened Judges
  import opened Text

  /** `map(w => w[0]).join("")`: each word's first character; an empty word gives `undefined`, which joins as nothing. */
  function FirstChars(words: seq<string>): string
    decreases |words|
  {
    if words == [] then [] else (if words[0] == [] then [] else [words[0][0]]) + FirstChars(words[1..])
  }

  /** The initials rule: first characters of the space-separated words, uppercased, at most two. */
  function Initials(name: string): (r: string)
    ensures |r| <= 2
  {
    var s := ToUpper(FirstChars(Split(name, ' ')));
    if |s| <= 2 then s else s[..2]
  }

  /** The characters of `s` that begin a word: not a space, and at the start or after a space. */
  function WordStarts(s: string, afterSpace: bool): string
    decreases |s|
  {
    if s == [] then [] else (if s[0] != ' ' && afterSpace then [s[0]] else []) + WordStarts(s[1..], s[0] == ' ')
  }

  /** Inside a word nothing begins a word. */
  lemma {:induction false} InsideWord(w: string, t: string)
    requires ' ' !in w
    ensures WordStarts(w + t, false) == WordStarts(t, false)
  {
    if w != [] {
      assert (w + t)[1..] == w[1..] + t;
      InsideWord(w[1..], t);
    } else {
      assert w + t == t;
    }
  }

  /** A word followed by a space contributes its first character, if it has one. */
  lemma WordThenSpace(w: string, t: string)
    requires ' ' !in w
    ensures WordStarts(w + [' '] + t, true) == (if w == [] then [] else [w[0]]) + WordStarts(t, true)
  {
    var x := w + [' '] + t;
    if w == [] {
      assert x == [' '] + t;
      assert x[1..] == t;
    } else {
      assert x[1..] == w[1..] + ([' '] + t);
      InsideWord(w[1..], [' '] + t);
      assert ([' '] + t)[1..] == t;
    }
  }

  lemma LastWord(w: string)
    requires ' ' !in w
    ensures WordStarts(w, true) == if w == [] then [] else [w[0]]
  {
    if w != [] {
      InsideWord(w[1..], []);
      assert w[1..] + [] == w[1..];
    }
  }

  /** The split-based rule picks exactly the characters that begin words, in order. */
  lemma {:induction false} FirstCharsSpec(s: string)
    ensures FirstChars(Split(s, ' ')) == WordStarts(s, true)
    decreases |s|
  {
    var i := IndexOf(s, ' ');
    IndexOfSpec(s, ' ');
    if i < 0 {
      LastWord(s);
      assert Split(s, ' ') == [s];
      assert FirstChars([s]) == (if s == [] then [] else [s[0]]) + FirstChars([]);
    } else {
      var w, t := s[..i], s[i + 1..];
      assert s == w + [' '] + t;
      FirstCharsSpec(t);
      WordThenSpace(w, t);
      var parts := Split(s, ' ');
      assert parts == [w] + Split(t, ' ');
      assert parts[1..] == Split(t, ' ');
    }
  }

  /** The initials are the first two word beginnings, uppercased. */
  lemma InitialsSpec(name: string)
    ensures var w := ToUpper(WordStarts(name, true));
      Initials(name) == if |w| <= 2 then w else w[..2]
  {
    FirstCharsSpec(name);
  }

  /** The list `saveEdit` hands on: slot `i` renamed with new initials, every other slot as it was. */
  function UpdatedJudges(judges: seq<Judge>, i: nat, name: string, role: string): seq<Judge>
    requires i < |judges|
  {
    judges[i := judges[i].(name := name, role := role, initials := Initials(name))]
  }

  /** Same length; only slot `i` changes, and there only the name, the role and the initials. */
  lemma UpdatedJudgesSpec(judges: seq<Judge>, i: nat, name: string, role: string)
    requires i < |judges|
    ensures var r := UpdatedJudges(judges, i, name, role);
      |r| == |judges| && (forall k | 0 <= k < |r| && k != i :: r[k] == judges[k])
      && r[i].name == name && r[i].role == role && r[i].initials == Initials(name)
      && r[i].kind == judges[i].kind && r[i].voiceId == judges[i].voiceId
      && r[i].colorClass == judges[i].colorClass && r[i].bgClass == judges[i].bgClass
      && r[i].borderClass == judges[i].borderClass && r[i].textClass == judges[i].textClass
  {
  }

  /**
   * The editor's state: the `customJudges` it was given, the slot being edited with the two
   * input fields, and the lists passed to `onUpdateJudges`, in the order they were passed.
   */
  class JudgeEditor {
    var judges: seq<Judge>
    var editIndex: Option<nat>
    var editName: string
    var editRole: string
    var published: seq<seq<Judge>>

    /** The slot being edited is one of the panel's. */
    predicate Valid()
      reads this
    {
      editIndex.Some? ==> editIndex.value < |judges|
    }

    constructor (customJudges: seq<Judge>)
      ensures Valid() && judges == customJudges && editIndex.None? && editName == "" && editRole == ""
      ensures published == []
    {
      judges := customJudges;
      editIndex := None;
      editName := "";
      editRole := "";
      published := [];
    }

    /** `openEdit(i)`: the dialog opens on judge `i` with its name and role. */
    method OpenEdit(i: nat)
      requires i < |judges|
      modifies this
      ensures Valid() && editIndex == Some(i) && editName == judges[i].name && editRole == judges[i].role
      ensures judges == old(judges) && published == old(published)
    {
      editIndex := Some(i);
      editName := judges[i].name;
      editRole := judges[i].role;
    }

    /** Typing into the two input fields. */
    method Type(name: string, role: string)
      modifies this
      ensures editName == name && editRole == role
      ensures judges == old(judges) && editIndex == old(editIndex) && published == old(published)
    {
      editName := name;
      editRole := role;
    }

    /** Closing the dialog without saving (`onOpenChange(false)`): no slot is open any more, the fields keep what was typed. */
    method Close()
      modifies this
      ensures editIndex.None? && Valid()
      ensures judges == old(judges) && editName == old(editName) && editRole == old(editRole) && published == old(published)
    {
      editIndex := None;
    }

    /**
     * `saveEdit`: nothing happens without an open slot; otherwise a copy of the panel with that
     * slot updated is handed on, and the dialog closes.
     */
    method SaveEdit()
      requires Valid()
      modifies this
      ensures Valid() && editIndex.None? && judges == old(judges)
      ensures editName == old(editName) && editRole == old(editRole)
      ensures old(editIndex).None? ==> published == old(published)
      ensures old(editIndex).Some? ==>
        published == old(published) + [UpdatedJudges(judges, old(editIndex).value, old(editName), old(editRole))]
    {
      if editIndex.None? {
        return;
      }
      var i := editIndex.value;
      var current := judges;
      var updated := new Judge[|current|](k requires 0 <= k < |current| => current[k]);
      assert updated[..] == judges;
      var initials := Initials(editName);
      updated[i] := updated[i].(name := editName, role := editRole, initials := initials);
      published := published + [updated[..]];
      editIndex := None;
    }
  }
}
