// File paths as filepath.Clean, Dir, Ext and Rel see them.
module FilePaths {
  import opened Machine

  type Name = string

  // A cleaned path: whether it starts at the root, and its elements.
  datatype Path = Path(rooted: bool, parts: seq<Name>)

  // strings.Split(s, "/")
  function Split(s: string): (r: seq<Name>)
    ensures |r| >= 1
  {
    if s == "" then [""]
    else
      var rest := Split(s[1..]);
      if s[0] == '/' then [""] + rest else [[s[0]] + rest[0]] + rest[1..]
  }

  // Drops "" and ".", and lets ".." take back the element before it.
  function Cleaned(rooted: bool, raw: seq<Name>): seq<Name> {
    if raw == [] then []
    else
      var before := Cleaned(rooted, raw[..|raw| - 1]);
      var last := raw[|raw| - 1];
      if last == "" || last == "." then before
      else if last != ".." then before + [last]
      else if before != [] && before[|before| - 1] != ".." then before[..|before| - 1]
      else if rooted then before
      else before + [".."]
  }

  predicate Rooted(text: string) {
    text != "" && text[0] == '/'
  }

  // filepath.Clean
  function Clean(text: string): Path {
    Path(Rooted(text), Cleaned(Rooted(text), Split(text)))
  }

  // The element after the last slash.
  function Last(text: string): Name {
    Split(text)[|Split(text)| - 1]
  }

  // filepath.Dir: everything up to the last slash, cleaned.
  function Dir(text: string): Path {
    Path(Rooted(text), Cleaned(Rooted(text), Split(text)[..|Split(text)| - 1]))
  }

  // filepath.Ext: from the last dot of the last element on.
  function Ext(text: string): string {
    if text == "" || text[|text| - 1] == '/' then ""
    else if text[|text| - 1] == '.' then "."
    else
      var e := Ext(text[..|text| - 1]);
      if e == "" then "" else e + [text[|text| - 1]]
  }

  function CommonLength(a: seq<Name>, b: seq<Name>): (n: nat)
    ensures n <= |a| && n <= |b| && a[..n] == b[..n]
    ensures n < |a| && n < |b| ==> a[n] != b[n]
  {
    if a != [] && b != [] && a[0] == b[0] then 1 + CommonLength(a[1..], b[1..]) else 0
  }

  function Ups(n: nat): (r: seq<Name>)
    ensures |r| == n && forall i :: 0 <= i < n ==> r[i] == ".."
  {
    seq(n, _ => "..")
  }

  // filepath.Rel on cleaned paths; [] is ".".
  function Rel(base: Path, target: Path): Option<seq<Name>> {
    if base.rooted != target.rooted then None
    else
      var n := CommonLength(base.parts, target.parts);
      if n < |base.parts| && base.parts[n] == ".." then None
      else Some(Ups(|base.parts| - n) + target.parts[n..])
  }

  // strings.HasPrefix(rel, "..")
  predicate StartsUp(rel: seq<Name>) {
    rel != [] && ".." <= rel[0]
  }

  // Rel yields neither an error, nor ".", nor something starting with ".." exactly for
  // what lies below the base through an element that does not start with "..".
  lemma RelIsBelowIff(base: Path, target: Path)
    ensures var rel := Rel(base, target);
            rel.Some? && rel.value != [] && !StartsUp(rel.value) <==>
            base.rooted == target.rooted && base.parts < target.parts && !StartsUp(target.parts[|base.parts|..])
    ensures base.rooted == target.rooted && base.parts <= target.parts ==>
              Rel(base, target) == Some(target.parts[|base.parts|..])
  {
    if base.rooted == target.rooted {
      var n := CommonLength(base.parts, target.parts);
      if base.parts <= target.parts {
        assert Ups(0) + target.parts[n..] == target.parts[n..];
      } else {
        assert (Ups(|base.parts| - n) + target.parts[n..])[0] == "..";
      }
    }
  }

  // A path is its directory or directly below it, unless it ends in "..".
  lemma CleanFromDir(text: string)
    requires Last(text) != ".."
    ensures Clean(text).rooted == Dir(text).rooted
    ensures Clean(text).parts == Dir(text).parts + if Last(text) in {"", "."} then [] else [Last(text)]
  {
  }

  lemma {:induction false} SplitPlain(s: string)
    requires '/' !in s
    ensures Split(s) == [s]
  {
    if s != "" {
      SplitPlain(s[1..]);
      assert [s[0]] + s[1..] == s;
    }
  }

  lemma SplitCons(c: char, t: string)
    ensures Split([c] + t) == if c == '/' then [""] + Split(t) else [[c] + Split(t)[0]] + Split(t)[1..]
  {
    assert ([c] + t)[1..] == t;
  }

  // A suffix without a slash only lengthens the last element.
  lemma {:induction false} SplitAppend(s: string, suffix: string)
    requires '/' !in suffix
    ensures var r := Split(s);
            Split(s + suffix) == r[..|r| - 1] + [r[|r| - 1] + suffix]
  {
    if s == "" {
      assert s + suffix == suffix;
      SplitPlain(suffix);
    } else {
      var c, t := s[0], s[1..];
      SplitAppend(t, suffix);
      assert s == [c] + t && s + suffix == [c] + (t + suffix);
      SplitCons(c, t);
      SplitCons(c, t + suffix);
      AppendToLast(c, Split(t), suffix);
      hide Split;
    }
  }

  // Growing the last element commutes with putting a character in front of the first.
  lemma AppendToLast(c: char, rest: seq<Name>, suffix: string)
    requires rest != []
    ensures var grown := rest[..|rest| - 1] + [rest[|rest| - 1] + suffix];
            var a, b := [""] + rest, [[c] + rest[0]] + rest[1..];
            && [""] + grown == a[..|a| - 1] + [a[|a| - 1] + suffix]
            && [[c] + grown[0]] + grown[1..] == b[..|b| - 1] + [b[|b| - 1] + suffix]
  {
    if |rest| == 1 {
      assert [c] + (rest[0] + suffix) == ([c] + rest[0]) + suffix;
    }
  }

  lemma SiblingBySuffix(s: string, suffix: string)
    requires '/' !in suffix && s != ""
    ensures Dir(s + suffix) == Dir(s) && Last(s + suffix) == Last(s) + suffix
  {
    SplitAppend(s, suffix);
    var r := Split(s);
    assert Split(s + suffix)[..|r| - 1] == r[..|r| - 1];
  }

  // ---------- what the functions mean ----------

  // Where one element leads from a directory, given by the elements from the root on.
  function Enter(at: seq<Name>, e: Name): seq<Name> {
    if e == "" || e == "." then at
    else if e == ".." then (if at == [] then [] else at[..|at| - 1])
    else at + [e]
  }

  function Walk(at: seq<Name>, elements: seq<Name>): seq<Name> {
    if elements == [] then at
    else Enter(Walk(at, elements[..|elements| - 1]), elements[|elements| - 1])
  }

  lemma WalkOn(at: seq<Name>, elements: seq<Name>, e: Name)
    ensures Walk(at, elements + [e]) == Enter(Walk(at, elements), e)
  {
    assert (elements + [e])[..|elements|] == elements;
  }

  // A cleaned path has no empty element and no ".", and ".." only in front, and there only
  // when it does not start at the root.
  lemma {:induction false} CleanedIsNormal(rooted: bool, raw: seq<Name>)
    ensures var r := Cleaned(rooted, raw);
            && "" !in r && "." !in r && (rooted ==> ".." !in r)
            && (forall i, j :: 0 <= i < j < |r| && r[j] == ".." ==> r[i] == "..")
  {
    if raw != [] {
      CleanedIsNormal(rooted, raw[..|raw| - 1]);
    }
  }

  // And it leads from every directory to where the path itself leads.
  lemma {:induction false} CleanedLeadsThere(at: seq<Name>, rooted: bool, raw: seq<Name>)
    requires rooted ==> at == []
    ensures Walk(at, Cleaned(rooted, raw)) == Walk(at, raw)
  {
    if raw != [] {
      var before, last := Cleaned(rooted, raw[..|raw| - 1]), raw[|raw| - 1];
      CleanedLeadsThere(at, rooted, raw[..|raw| - 1]);
      CleanedIsNormal(rooted, raw[..|raw| - 1]);
      WalkOn(at, before, last);
      if before != [] {
        assert before[|before| - 1] in before;
      }
    }
  }

  // In terms of the text: from the root for a rooted path, from anywhere for the others.
  lemma CleanLeadsThere(at: seq<Name>, text: string)
    requires Rooted(text) ==> at == []
    ensures Walk(at, Clean(text).parts) == Walk(at, Split(text))
  {
    CleanedLeadsThere(at, Rooted(text), Split(text));
  }

  function Joined(elements: seq<Name>): string
    requires elements != []
  {
    if |elements| == 1 then elements[0] else elements[0] + ['/'] + Joined(elements[1..])
  }

  // The elements between the slashes.
  lemma {:induction false} SplitIsInverse(s: string)
    ensures Joined(Split(s)) == s && forall e :: e in Split(s) ==> '/' !in e
  {
    if s != "" {
      var rest := Split(s[1..]);
      SplitIsInverse(s[1..]);
      assert s == [s[0]] + s[1..];
      if s[0] == '/' {
        assert ([""] + rest)[1..] == rest;
      } else {
        assert rest[0] in rest;
        assert ([[s[0]] + rest[0]] + rest[1..])[1..] == rest[1..];
        if |rest| > 1 {
          assert [s[0]] + (rest[0] + ['/'] + Joined(rest[1..])) == ([s[0]] + rest[0]) + ['/'] + Joined(rest[1..]);
        }
      }
    }
  }

  // The extension is the end of the text from its last dot on, if no slash follows that dot.
  lemma {:induction false} ExtIs(text: string)
    ensures var e := Ext(text);
            && |e| <= |text| && text[|text| - |e|..] == e
            && (e != "" ==> e[0] == '.' && '.' !in e[1..] && '/' !in e)
            && (e == "" ==> forall i :: 0 <= i < |text| && text[i] == '.' ==> '/' in text[i..])
  {
    if text != "" && text[|text| - 1] !in {'/', '.'} {
      var front := text[..|text| - 1];
      ExtIs(front);
      if Ext(front) == "" {
        forall i | 0 <= i < |text| && text[i] == '.'
          ensures '/' in text[i..]
        {
          var k :| 0 <= k < |front[i..]| && front[i..][k] == '/';
          assert text[i..][k] == '/';
        }
      } else {
        assert Ext(text)[1..] == Ext(front)[1..] + [text[|text| - 1]];
        assert text[|text| - |Ext(text)|..] == front[|front| - |Ext(front)|..] + [text[|text| - 1]];
      }
    } else if text != "" && text[|text| - 1] == '/' {
      forall i | 0 <= i < |text|
        ensures '/' in text[i..]
      {
        assert text[i..][|text| - 1 - i] == '/';
      }
    }
  }
}
