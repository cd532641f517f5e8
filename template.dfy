/** `string.Template.safe_substitute` of Python 2: placeholders start with
    "$". "$$" stands for a "$"; "$name" and "${name}" stand for the value of
    `name`, where a name is a letter or "_" followed by letters, digits and
    "_" (ASCII, either case); a placeholder whose name has no value, and a
    "$" that starts none of these, are left as they are. Substituted values
    are not scanned again. */
module StringTemplate {
  import opened Text

  predicate IsIdStart(c: char)
  {
    c == '_' || 'a' <= c <= 'z' || 'A' <= c <= 'Z'
  }

  predicate IsIdChar(c: char)
  {
    IsIdStart(c) || IsDigit(c)
  }

  predicate IsIdentifier(s: string)
  {
    s != [] && IsIdStart(s[0]) && forall i :: 0 <= i < |s| ==> IsIdChar(s[i])
  }

  /** Length of the run of identifier characters that starts `s`. */
  function IdLen(s: string): (n: nat)
    ensures n <= |s|
    ensures forall i :: 0 <= i < n ==> IsIdChar(s[i])
    ensures n < |s| ==> !IsIdChar(s[n])
  {
    if s == [] || !IsIdChar(s[0]) then 0 else 1 + IdLen(s[1..])
  }

  function SafeSubstitute(t: string, values: map<string, string>): string
    decreases |t|
  {
    if t == [] then []
    else if t[0] != '$' then [t[0]] + SafeSubstitute(t[1..], values)
    else if |t| >= 2 && t[1] == '$' then "$" + SafeSubstitute(t[2..], values)
    else if |t| >= 2 && IsIdStart(t[1]) then
      var n := IdLen(t[1..]);
      var name := t[1..1 + n];
      (if name in values then values[name] else "$" + name) + SafeSubstitute(t[1 + n..], values)
    else if |t| >= 3 && t[1] == '{' && IsIdStart(t[2])
            && 2 + IdLen(t[2..]) < |t| && t[2 + IdLen(t[2..])] == '}' then
      var n := IdLen(t[2..]);
      var name := t[2..2 + n];
      (if name in values then values[name] else "${" + name + "}") + SafeSubstitute(t[3 + n..], values)
    else "$" + SafeSubstitute(t[1..], values)
  }

  /** Text without "$" is copied. */
  lemma {:induction false} SubstitutePlain(a: string, b: string, values: map<string, string>)
    requires '$' !in a
    ensures SafeSubstitute(a + b, values) == a + SafeSubstitute(b, values)
    decreases |a|
  {
    if a != [] {
      assert (a + b)[0] == a[0];
      assert (a + b)[1..] == a[1..] + b;
      SubstitutePlain(a[1..], b, values);
    } else {
      assert a + b == b;
    }
  }

  /** The identifier run of a name followed by a non-identifier character
      is the name. */
  lemma {:induction false} IdLenOfName(name: string, b: string)
    requires forall i :: 0 <= i < |name| ==> IsIdChar(name[i])
    requires b != [] ==> !IsIdChar(b[0])
    ensures IdLen(name + b) == |name|
    decreases |name|
  {
    if name != [] {
      assert (name + b)[1..] == name[1..] + b;
      IdLenOfName(name[1..], b);
    } else {
      assert name + b == b;
    }
  }

  /** "$name" is replaced by the value of `name` when it has one and kept
      otherwise, provided what follows cannot continue the name. */
  lemma SubstituteNamed(name: string, b: string, values: map<string, string>)
    requires IsIdentifier(name)
    requires b != [] ==> !IsIdChar(b[0])
    ensures SafeSubstitute("$" + name + b, values)
         == (if name in values then values[name] else "$" + name) + SafeSubstitute(b, values)
  {
    var t := "$" + name + b;
    assert t[1..] == name + b;
    IdLenOfName(name, b);
    assert t[1..1 + |name|] == name;
    assert t[1 + |name|..] == b;
  }

  /** "$$" stands for one "$". */
  lemma SubstituteEscaped(b: string, values: map<string, string>)
    ensures SafeSubstitute("$$" + b, values) == "$" + SafeSubstitute(b, values)
  {
    assert ("$$" + b)[2..] == b;
  }

  /** "${name}" is replaced by the value of `name` when it has one and kept
      otherwise, whatever follows. */
  lemma SubstituteBraced(name: string, b: string, values: map<string, string>)
    requires IsIdentifier(name)
    ensures SafeSubstitute("${" + name + "}" + b, values)
         == (if name in values then values[name] else "${" + name + "}") + SafeSubstitute(b, values)
  {
    var t := "${" + name + "}" + b;
    assert t[2..] == name + ("}" + b);
    IdLenOfName(name, "}" + b);
    assert t[2..2 + |name|] == name;
    assert t[2 + |name|] == '}';
    assert t[3 + |name|..] == b;
  }

  /** A template cut into literal text and "$name" placeholders. */
  datatype Piece = Literal(text: string) | Placeholder(name: string)

  /** The template text the pieces spell. */
  function Render(ps: seq<Piece>): string
  {
    if ps == [] then []
    else
      (match ps[0]
       case Literal(t) => t
       case Placeholder(n) => "$" + n)
      + Render(ps[1..])
  }

  /** The pieces with every placeholder replaced by its value. */
  function Fill(ps: seq<Piece>, values: map<string, string>): string
    requires forall i :: 0 <= i < |ps| && ps[i].Placeholder? ==> ps[i].name in values
  {
    if ps == [] then []
    else
      (match ps[0]
       case Literal(t) => t
       case Placeholder(n) => values[n])
      + Fill(ps[1..], values)
  }

  /** Rendering and filling work piece by piece. */
  lemma RenderCons(p: Piece, ps: seq<Piece>, values: map<string, string>)
    requires p.Placeholder? ==> p.name in values
    requires forall i :: 0 <= i < |ps| && ps[i].Placeholder? ==> ps[i].name in values
    ensures Render([p] + ps) == (if p.Literal? then p.text else "$" + p.name) + Render(ps)
    ensures Fill([p] + ps, values) == (if p.Literal? then p.text else values[p.name]) + Fill(ps, values)
  {
    assert ([p] + ps)[0] == p && ([p] + ps)[1..] == ps;
  }

  /** Literal text holds no "$", and every placeholder names an identifier
      and is followed by literal text that cannot continue the name. */
  ghost predicate Unambiguous(ps: seq<Piece>)
  {
    forall i :: 0 <= i < |ps| ==> UnambiguousAt(ps, i)
  }

  ghost predicate UnambiguousAt(ps: seq<Piece>, i: nat)
    requires i < |ps|
  {
    match ps[i]
    case Literal(t) => '$' !in t
    case Placeholder(n) =>
      IsIdentifier(n) && i + 1 < |ps| && ps[i + 1].Literal?
      && ps[i + 1].text != [] && !IsIdChar(ps[i + 1].text[0])
  }

  /** Pieces that start with non-empty literal text spell text that starts
      with its first character. */
  lemma RenderStartsWithLiteral(ps: seq<Piece>)
    requires ps != [] && ps[0].Literal? && ps[0].text != []
    ensures Render(ps) != [] && Render(ps)[0] == ps[0].text[0]
  {
  }

  /** `safe_substitute` on an unambiguous template whose placeholders all
      have values replaces each of them by its value and copies the
      literal text. */
  lemma {:induction false} SubstitutePieces(ps: seq<Piece>, values: map<string, string>)
    requires Unambiguous(ps)
    requires forall i :: 0 <= i < |ps| && ps[i].Placeholder? ==> ps[i].name in values
    ensures SafeSubstitute(Render(ps), values) == Fill(ps, values)
    decreases |ps|
  {
    if ps != [] {
      var rest := ps[1..];
      assert Unambiguous(rest) by {
        forall i | 0 <= i < |rest| ensures UnambiguousAt(rest, i) {
          assert UnambiguousAt(ps, i + 1);
          assert rest[i] == ps[i + 1];
          if i + 1 < |rest| {
            assert rest[i + 1] == ps[i + 2];
          }
        }
      }
      assert forall i :: 0 <= i < |rest| && rest[i].Placeholder? ==> rest[i].name in values by {
        forall i | 0 <= i < |rest| && rest[i].Placeholder? ensures rest[i].name in values {
          assert rest[i] == ps[i + 1];
        }
      }
      SubstitutePieces(rest, values);
      match ps[0]
      case Literal(t) =>
        assert UnambiguousAt(ps, 0);
        assert Render(ps) == t + Render(rest);
        SubstitutePlain(t, Render(rest), values);
      case Placeholder(n) =>
        assert UnambiguousAt(ps, 0);
        assert Render(ps) == "$" + n + Render(rest);
        RenderStartsWithLiteral(rest);
        SubstituteNamed(n, Render(rest), values);
    }
  }
}
