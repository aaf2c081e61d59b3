/** An accessor property defined with `Object.defineProperty`: a person's
    `fullName` reads as "last first" and, when assigned, splits the text at
    spaces into the two name fields. */
module FullName {
  import opened Values

  /** How many spaces `s` holds. */
  function Spaces(s: string): (n: nat)
  {
    if s == [] then 0 else (if s[0] == ' ' then 1 else 0) + Spaces(s[1..])
  }

  /** `s.split(' ')`: the pieces between the spaces, in order, empty pieces
      included; text without a space is a single piece. */
  function Split(s: string): (r: seq<string>)
    ensures |r| == Spaces(s) + 1
    ensures forall i :: 0 <= i < |r| ==> ' ' !in r[i]
    decreases |s|
  {
    if s == [] then [""]
    else if s[0] == ' ' then [""] + Split(s[1..])
    else
      var rest := Split(s[1..]);
      [[s[0]] + rest[0]] + rest[1..]
  }

  /** `parts.join(' ')`. */
  function Join(parts: seq<string>): (s: string)
    requires |parts| >= 1
    decreases |parts|
  {
    if |parts| == 1 then parts[0] else parts[0] + " " + Join(parts[1..])
  }

  /** Splitting loses nothing: joining the pieces back gives the text. */
  lemma {:induction false} JoinSplit(s: string)
    ensures Join(Split(s)) == s
    decreases |s|
  {
    if s == [] {
    } else if s[0] == ' ' {
      JoinSplit(s[1..]);
      assert Split(s)[1..] == Split(s[1..]);
    } else {
      JoinSplit(s[1..]);
      var rest := Split(s[1..]);
      var r := Split(s);
      assert r[1..] == rest[1..];
      if |rest| == 1 {
        assert s == [s[0]] + s[1..];
      } else {
        assert Join(rest) == rest[0] + " " + Join(rest[1..]);
        assert s == [s[0]] + s[1..];
      }
    }
  }

  /** A first piece without spaces stays in front of the first piece of
      whatever follows it. */
  lemma {:induction false} SplitAfterWord(w: string, t: string)
    requires ' ' !in w
    ensures Split(w + t) == [w + Split(t)[0]] + Split(t)[1..]
    decreases |w|
  {
    if w == [] {
      assert w + t == t && w + Split(t)[0] == Split(t)[0];
    } else {
      assert w[0] != ' ';
      assert (w + t)[0] == w[0] && (w + t)[1..] == w[1..] + t;
      SplitAfterWord(w[1..], t);
      var rest := Split(w[1..] + t);
      assert rest[0] == w[1..] + Split(t)[0] && rest[1..] == Split(t)[1..];
      assert [w[0]] + (w[1..] + Split(t)[0]) == w + Split(t)[0];
    }
  }

  /** Joining pieces without spaces and splitting again gives the pieces. */
  lemma {:induction false} SplitJoin(parts: seq<string>)
    requires |parts| >= 1
    requires forall i :: 0 <= i < |parts| ==> ' ' !in parts[i]
    ensures Split(Join(parts)) == parts
    decreases |parts|
  {
    SplitAfterWord(parts[0], if |parts| == 1 then "" else " " + Join(parts[1..]));
    if |parts| == 1 {
      assert parts[0] + "" == parts[0];
    } else {
      SplitJoin(parts[1..]);
      var u := Join(parts[1..]);
      assert Split(" " + u) == [""] + Split(u) by {
        assert (" " + u)[1..] == u;
      }
      assert parts[0] + " " + u == parts[0] + (" " + u);
      assert parts[0] + "" == parts[0];
      assert ([""] + Split(u))[1..] == parts[1..];
      assert [parts[0]] + parts[1..] == parts;
    }
  }

  /** `arr[i]`: the piece at `i`, or `undefined` past the end. */
  function Piece(parts: seq<string>, i: nat): (v: Value)
    ensures i < |parts| <==> v.Str?
    ensures i < |parts| ==> v == Str(parts[i])
    ensures i >= |parts| ==> v == Undefined
  {
    if i < |parts| then Str(parts[i]) else Undefined
  }

  /** What the setter stores for `fullName = val`: the first piece becomes
      the last name, the second (or `undefined`) the first name; further
      pieces are ignored. */
  function Assigned(val: string): (fields: (Value, Value))
  {
    var arr := Split(val);
    (Str(arr[0]), Piece(arr, 1))
  }

  /** What the getter returns for the two name fields. */
  function Shown(last: Value, first: Value): (text: string)
  {
    ToString(last) + " " + ToString(first)
  }

  /** Text with exactly one space reads back unchanged after assignment. */
  lemma OneSpaceRoundTrip(val: string)
    requires Spaces(val) == 1
    ensures Assigned(val).0.Str? && Assigned(val).1.Str?
    ensures Shown(Assigned(val).0, Assigned(val).1) == val
  {
    JoinSplit(val);
    var arr := Split(val);
    assert Join(arr) == arr[0] + " " + Join(arr[1..]);
  }

  /** Text without a space becomes the last name alone: the first name is
      `undefined`, and the getter then shows that word. */
  lemma NoSpaceLeavesFirstUndefined(val: string)
    requires Spaces(val) == 0
    ensures Assigned(val) == (Str(val), Undefined)
    ensures Shown(Assigned(val).0, Assigned(val).1) == val + " undefined"
  {
    JoinSplit(val);
  }

  /** With two spaces or more, the words after the second are lost: the
      getter shows a proper prefix of the assigned text. */
  lemma ExtraWordsDropped(val: string)
    requires Spaces(val) >= 2
    ensures Assigned(val).1.Str?
    ensures Shown(Assigned(val).0, Assigned(val).1) < val
  {
    JoinSplit(val);
    var arr := Split(val);
    var tail := Join(arr[2..]);
    assert Join(arr) == arr[0] + " " + Join(arr[1..]);
    assert arr[1..][1..] == arr[2..];
    assert Join(arr[1..]) == arr[1] + " " + tail;
    assert val == (arr[0] + " " + arr[1]) + (" " + tail);
  }

  /** Names without spaces survive a read followed by an assignment of what
      was read. */
  lemma GetThenSet(last: string, first: string)
    requires ' ' !in last && ' ' !in first
    ensures Assigned(Shown(Str(last), Str(first))) == (Str(last), Str(first))
  {
    SplitJoin([last, first]);
    assert Join([last, first]) == last + " " + Join([first]);
  }

  /** The `person` object: its two data properties and the `fullName`
      accessor defined on it. */
  class Person {
    var firstName: Value
    var lastName: Value

    /** The object literal, before `fullName` is ever assigned. */
    constructor ()
      ensures firstName == Str("meimei") && lastName == Str("han")
      ensures FullName() == "han meimei"
    {
      firstName := Str("meimei");
      lastName := Str("han");
    }

    /** `person.fullName`. Names without spaces split back into themselves. */
    function FullName(): (r: string)
      reads this
      ensures lastName.Str? && firstName.Str? && ' ' !in lastName.s && ' ' !in firstName.s ==>
        Split(r) == [lastName.s, firstName.s]
    {
      if lastName.Str? && firstName.Str? && ' ' !in lastName.s && ' ' !in firstName.s then
        SplitJoin([lastName.s, firstName.s]);
        assert Join([lastName.s, firstName.s]) == lastName.s + " " + Join([firstName.s]);
        Shown(lastName, firstName)
      else Shown(lastName, firstName)
    }

    /** `person.fullName = val`: both fields are overwritten, nothing else. */
    method SetFullName(val: string)
      modifies this
      ensures (lastName, firstName) == Assigned(val)
    {
      var arr := Split(val);
      lastName := Str(arr[0]);
      firstName := Piece(arr, 1);
    }
  }
}
