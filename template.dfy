/** The substitution inside `compile`: `text.replace(/{{(.*?)}}/g, f)`.
    Markers are found left to right; each one is the earliest `}}` after a
    `{{` (non-greedy), and `.` does not cross a line terminator. A `{{` with no
    usable `}}` stays text and the scan moves on by one character. */
module Template {
  import opened Values

  /** The characters the regular expression's `.` does not match. */
  predicate IsLineTerminator(c: char)
  {
    c == '\n' || c == '\r' || c == '\U{2028}' || c == '\U{2029}'
  }

  /** A `}}` at `k` closes a marker whose name starts at 0 in `s`. */
  predicate ClosesAt(s: string, k: int)
  {
    0 <= k && k + 2 <= |s| && s[k] == '}' && s[k + 1] == '}'
    && forall j :: 0 <= j < k ==> !IsLineTerminator(s[j])
  }

  /** The length of the shortest name `s` can start with: the first position
      that closes a marker, if any. */
  function Close(s: string): (r: Option<nat>)
    ensures r.Some? ==> ClosesAt(s, r.value)
    ensures r.Some? ==> forall k :: 0 <= k < r.value ==> !ClosesAt(s, k)
    ensures r.None? ==> forall k :: !ClosesAt(s, k)
    decreases |s|
  {
    if |s| < 2 then None
    else if s[0] == '}' && s[1] == '}' then Some(0)
    else if IsLineTerminator(s[0]) then
      assert forall k :: 0 < k ==> !ClosesAt(s, k);
      None
    else
      match Close(s[1..])
      case Some(k) =>
        assert forall j :: 0 < j ==> (ClosesAt(s, j) <==> ClosesAt(s[1..], j - 1));
        Some(k + 1)
      case None =>
        assert forall j :: 0 < j ==> (ClosesAt(s, j) <==> ClosesAt(s[1..], j - 1));
        None
  }

  /** The length of the name of the marker starting at the head of `t`, if one
      does. */
  function MarkerAt(t: string): (len: Option<nat>)
  {
    if 2 <= |t| && t[0] == '{' && t[1] == '{' then Close(t[2..]) else None
  }

  /** The names between the braces of the markers, in the order the callback
      is invoked for them. */
  function Names(t: string): (names: seq<string>)
    decreases |t|
  {
    if t == [] then []
    else match MarkerAt(t)
      case Some(k) => [t[2..k + 2]] + Names(t[k + 4..])
      case None => Names(t[1..])
  }

  /** The text with the i-th marker replaced by `vals[i]`. */
  function Fill(t: string, vals: seq<string>): (text: string)
    requires |vals| == |Names(t)|
    decreases |t|
  {
    if t == [] then []
    else match MarkerAt(t)
      case Some(k) => vals[0] + Fill(t[k + 4..], vals[1..])
      case None => [t[0]] + Fill(t[1..], vals)
  }

  /** The marker text for a name. */
  function Marker(name: string): (text: string)
  {
    "{{" + name + "}}"
  }

  /** A name the scan can produce: it crosses no line terminator and no `}}`
      lies before its closing braces. */
  predicate ValidName(n: string)
  {
    (forall j :: 0 <= j < |n| ==> !IsLineTerminator(n[j]))
    && (forall j :: 0 <= j < |n| ==> !(n[j] == '}' && (n + "}")[j + 1] == '}'))
  }

  /** Every name found is one a marker could hold. */
  lemma {:induction false} NamesAreValid(t: string)
    ensures forall n :: n in Names(t) ==> ValidName(n)
    decreases |t|
  {
    if t != [] {
      match MarkerAt(t)
      case Some(k) =>
        NamesAreValid(t[k + 4..]);
        var s := t[2..];
        var n := t[2..k + 2];
        assert n == s[..k];
        forall j | 0 <= j < |n|
          ensures !IsLineTerminator(n[j])
          ensures !(n[j] == '}' && (n + "}")[j + 1] == '}')
        {
          assert !ClosesAt(s, j);
          assert (n + "}")[j + 1] == s[j + 1];
        }
      case None =>
        NamesAreValid(t[1..]);
    }
  }

  /** Putting every marker back for itself gives the template: text outside
      the markers passes through unchanged and the markers are exactly the
      `{{name}}` spans found. */
  lemma {:induction false} FillWithMarkersIsIdentity(t: string)
    ensures |MarkersOf(Names(t))| == |Names(t)|
    ensures Fill(t, MarkersOf(Names(t))) == t
    decreases |t|
  {
    if t != [] {
      match MarkerAt(t)
      case Some(k) =>
        var n, rest := t[2..k + 2], t[k + 4..];
        FillWithMarkersIsIdentity(rest);
        assert ([n] + Names(rest))[1..] == Names(rest);
        assert MarkersOf(Names(t)) == [Marker(n)] + MarkersOf(Names(rest));
        MarkerSpan(t, k);
      case None =>
        FillWithMarkersIsIdentity(t[1..]);
        assert t == [t[0]] + t[1..];
    }
  }

  /** A marker found at the head of `t` spans its braces and its name. */
  lemma MarkerSpan(t: string, k: nat)
    requires MarkerAt(t) == Some(k)
    ensures t == Marker(t[2..k + 2]) + t[k + 4..]
  {
    assert ClosesAt(t[2..], k);
    assert t == t[..2] + t[2..k + 2] + t[k + 2..k + 4] + t[k + 4..];
    assert t[..2] == "{{";
    assert t[k + 2..k + 4] == "}}";
  }

  function MarkersOf(names: seq<string>): (r: seq<string>)
    ensures |r| == |names|
  {
    if names == [] then [] else [Marker(names[0])] + MarkersOf(names[1..])
  }

  /** A template without markers is returned unchanged. */
  lemma NoMarkersUnchanged(t: string)
    requires Names(t) == []
    ensures Fill(t, []) == t
  {
    FillWithMarkersIsIdentity(t);
  }

  /** No marker starts within the first `n` characters of `u`. */
  predicate NoMarkerStartsIn(u: string, n: nat)
    requires n <= |u|
  {
    forall i :: 0 <= i < n ==> MarkerAt(u[i..]) == None
  }

  /** Text in which no marker starts is copied through, whatever follows it:
      a stray `{`, or a `{{` whose name would cross a line break, stays text. */
  lemma {:induction false} PlainTextPassesThrough(s: string, t: string, vals: seq<string>)
    requires NoMarkerStartsIn(s + t, |s|)
    requires |vals| == |Names(t)|
    ensures Names(s + t) == Names(t)
    ensures Fill(s + t, vals) == s + Fill(t, vals)
    decreases |s|
  {
    if s == [] {
      assert s + t == t;
    } else {
      var u, rest := s + t, s[1..] + t;
      assert u[0..] == u;
      assert MarkerAt(u) == None;
      assert u[1..] == rest;
      assert NoMarkerStartsIn(rest, |s[1..]|) by {
        forall i | 0 <= i < |s[1..]|
          ensures MarkerAt(rest[i..]) == None
        {
          assert rest[i..] == u[i + 1..];
        }
      }
      PlainTextPassesThrough(s[1..], t, vals);
      assert Names(u) == Names(rest);
      assert Fill(u, vals) == [u[0]] + Fill(rest, vals);
      ConsAppend(s, Fill(t, vals));
    }
  }

  /** Text split after its first character and rejoined before a suffix. */
  lemma ConsAppend(s: string, f: string)
    requires s != []
    ensures [s[0]] + (s[1..] + f) == s + f
  {
    assert s == [s[0]] + s[1..];
  }

  /** A lone `{`, as in a style rule, is copied through. */
  lemma StrayBracePassesThrough(t: string, vals: seq<string>)
    requires |vals| == |Names(t)|
    ensures Names("p{x}" + t) == Names(t)
    ensures Fill("p{x}" + t, vals) == "p{x}" + Fill(t, vals)
  {
    var s := "p{x}";
    forall i | 0 <= i < |s|
      ensures MarkerAt((s + t)[i..]) == None
    {
      assert (s + t)[i..][0] == s[i];
      if i == 1 {
        assert (s + t)[i..][1] == 'x';
      }
    }
    PlainTextPassesThrough(s, t, vals);
  }

  /** A `{{` whose line ends before any `}}` opens no marker. */
  lemma UnclosedMarkerPassesThrough(t: string, vals: seq<string>)
    requires |vals| == |Names(t)|
    ensures Names("{{a\n" + t) == Names(t)
    ensures Fill("{{a\n" + t, vals) == "{{a\n" + Fill(t, vals)
  {
    var s := "{{a\n";
    forall i | 0 <= i < |s|
      ensures MarkerAt((s + t)[i..]) == None
    {
      var u := (s + t)[i..];
      assert u[0] == s[i];
      if i == 0 {
        var w := u[2..];
        assert w[0] == 'a' && w[1..][0] == '\n';
        assert Close(w[1..]) == None;
      } else if i == 1 {
        assert u[1] == 'a';
      }
    }
    PlainTextPassesThrough(s, t, vals);
  }

  /** A marker with a valid name is replaced by its value, and the scan
      resumes right after it. */
  lemma MarkerIsReplaced(n: string, t: string, v: string, vals: seq<string>)
    requires ValidName(n)
    requires |vals| == |Names(t)|
    ensures Names(Marker(n) + t) == [n] + Names(t)
    ensures Fill(Marker(n) + t, [v] + vals) == v + Fill(t, vals)
  {
    var u := Marker(n) + t;
    var s := u[2..];
    assert s == n + "}}" + t;
    assert ClosesAt(s, |n|);
    forall k | 0 <= k < |n|
      ensures !ClosesAt(s, k)
    {
      assert (n + "}")[k + 1] == s[k + 1];
    }
    assert Close(s) == Some(|n|);
    assert u[2..|n| + 2] == n;
    assert u[|n| + 4..] == t;
  }
}
