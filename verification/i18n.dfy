/**
 * The translator (src/utils/i18n.ts): dotted-path lookup in a locale's nested
 * string tree, falling back to the key itself, followed by a single left-to-right
 * pass that replaces `{{word}}` placeholders with parameter values.
 */
module I18n {
  import opened Options

  /** A locale namespace: strings at the leaves, objects keyed by name inside. */
  datatype Tree = Leaf(text: string) | Node(children: map<string, Tree>)

  /** The path separator of translation keys. */
  const Dot: char := '.'

  /** `s` cut at every `sep` (JavaScript `split` with a one-character separator): empty pieces are kept. */
  function Split(s: string, sep: char): (parts: seq<string>)
    ensures |parts| >= 1
    ensures forall i :: 0 <= i < |parts| ==> sep !in parts[i]
    decreases |s|
  {
    if |s| == 0 then [""]
    else
      var rest := Split(s[1..], sep);
      if s[0] == sep then [""] + rest
      else [[s[0]] + rest[0]] + rest[1..]
  }

  /** The pieces glued back together with `sep` between neighbours. */
  function Join(parts: seq<string>, sep: char): string
    decreases |parts|
  {
    if |parts| == 0 then ""
    else if |parts| == 1 then parts[0]
    else parts[0] + [sep] + Join(parts[1..], sep)
  }

  /** Joining the pieces of a split gives back the string. */
  lemma {:induction false} JoinSplit(s: string, sep: char)
    ensures Join(Split(s, sep), sep) == s
    decreases |s|
  {
    if |s| > 0 {
      JoinSplit(s[1..], sep);
      var rest := Split(s[1..], sep);
      if s[0] == sep {
        assert Split(s, sep) == [""] + rest;
        assert Join([""] + rest, sep) == "" + [sep] + Join(rest, sep) by {
          assert ([""] + rest)[1..] == rest;
        }
        assert s == [s[0]] + s[1..];
      } else {
        if |rest| == 1 {
          assert s == [s[0]] + rest[0];
        } else {
          var tail := rest[1..];
          assert Join(rest, sep) == rest[0] + [sep] + Join(tail, sep);
          assert Split(s, sep)[1..] == tail;
          assert s == [s[0]] + s[1..];
        }
      }
    }
  }

  /** Splitting `a + [sep] + b`, where `a` has no separator, gives `a` and then the pieces of `b`. */
  lemma {:induction false} SplitAfterPiece(a: string, b: string, sep: char)
    requires sep !in a
    ensures Split(a + [sep] + b, sep) == [a] + Split(b, sep)
    decreases |a|
  {
    if |a| == 0 {
      assert (a + [sep] + b)[1..] == b;
    } else {
      SplitAfterPiece(a[1..], b, sep);
      assert (a + [sep] + b)[1..] == a[1..] + [sep] + b;
      assert [a[0]] + a[1..] == a;
    }
  }

  /** A string without the separator splits into itself alone. */
  lemma {:induction false} SplitWhole(a: string, sep: char)
    requires sep !in a
    ensures Split(a, sep) == [a]
    decreases |a|
  {
    if |a| > 0 {
      SplitWhole(a[1..], sep);
      assert [a[0]] + a[1..] == a;
    }
  }

  /** Splitting a join of separator-free pieces gives back the pieces. */
  lemma {:induction false} SplitJoin(parts: seq<string>, sep: char)
    requires |parts| >= 1
    requires forall i :: 0 <= i < |parts| ==> sep !in parts[i]
    ensures Split(Join(parts, sep), sep) == parts
    decreases |parts|
  {
    if |parts| == 1 {
      SplitWhole(parts[0], sep);
    } else {
      SplitJoin(parts[1..], sep);
      SplitAfterPiece(parts[0], Join(parts[1..], sep), sep);
      assert [parts[0]] + parts[1..] == parts;
    }
  }

  /** The subtree reached by following `keys` from `t`, or None when a step leaves the tree. */
  function Resolve(t: Tree, keys: seq<string>): Option<Tree>
    decreases |keys|
  {
    if |keys| == 0 then Some(t)
    else match t
      case Leaf(_) => None
      case Node(children) => if keys[0] in children then Resolve(children[keys[0]], keys[1..]) else None
  }

  /** Following `a + b` is following `a` and then, from where that ends, `b`. */
  lemma {:induction false} ResolveAppend(t: Tree, a: seq<string>, b: seq<string>)
    ensures Resolve(t, a + b) == match Resolve(t, a) case None => None case Some(u) => Resolve(u, b)
    decreases |a|
  {
    if |a| > 0 {
      assert (a + b)[0] == a[0] && (a + b)[1..] == a[1..] + b;
      match t
      case Leaf(_) =>
      case Node(children) =>
        if a[0] in children {
          ResolveAppend(children[a[0]], a[1..], b);
        }
    } else {
      assert a + b == b;
    }
  }

  /**
   * The string at dotted path `path` in `t` (`getNestedValue`): the leaf reached by
   * following the path's pieces, or `path` itself when a piece is missing, a string
   * is reached before the last piece, or the path ends at a subtree.
   */
  function GetNestedValue(t: Tree, path: string): string {
    match Resolve(t, Split(path, Dot))
    case Some(Leaf(text)) => text
    case _ => path
  }

  /** A path that reaches a leaf returns that leaf's string. */
  lemma LookupFindsLeaf(t: Tree, keys: seq<string>, text: string)
    requires |keys| >= 1 && forall i :: 0 <= i < |keys| ==> Dot !in keys[i]
    requires Resolve(t, keys) == Some(Leaf(text))
    ensures GetNestedValue(t, Join(keys, Dot)) == text
  {
    SplitJoin(keys, Dot);
  }

  /**
   * When following the path stops early, because a piece is not a child of the subtree
   * reached so far or a string is reached with pieces left, the key itself is returned.
   */
  lemma LookupMissingSegment(t: Tree, path: string, k: nat)
    requires k < |Split(path, Dot)|
    requires Resolve(t, Split(path, Dot)[..k]).Some?
    requires var u := Resolve(t, Split(path, Dot)[..k]).value; u.Leaf? || Split(path, Dot)[k] !in u.children
    ensures GetNestedValue(t, path) == path
  {
    var keys := Split(path, Dot);
    assert keys == keys[..k] + keys[k..];
    ResolveAppend(t, keys[..k], keys[k..]);
  }

  /** A path that ends at a subtree returns the key itself. */
  lemma LookupSubtree(t: Tree, path: string, children: map<string, Tree>)
    requires Resolve(t, Split(path, Dot)) == Some(Node(children))
    ensures GetNestedValue(t, path) == path
  {
  }

  /** `t` with the string `text` placed at `keys`, replacing whatever lay on the way. */
  function Insert(t: Tree, keys: seq<string>, text: string): Tree
    decreases |keys|
  {
    if |keys| == 0 then Leaf(text)
    else
      var children := if t.Node? then t.children else map[];
      var child := if keys[0] in children then children[keys[0]] else Node(map[]);
      Node(children[keys[0] := Insert(child, keys[1..], text)])
  }

  /** Following the keys of an insertion reaches the inserted string. */
  lemma {:induction false} ResolveInsert(t: Tree, keys: seq<string>, text: string)
    ensures Resolve(Insert(t, keys, text), keys) == Some(Leaf(text))
    decreases |keys|
  {
    if |keys| > 0 {
      var children := if t.Node? then t.children else map[];
      var child := if keys[0] in children then children[keys[0]] else Node(map[]);
      ResolveInsert(child, keys[1..], text);
    }
  }

  /** Looking up the dotted path of an inserted string returns that string. */
  lemma LookupAfterInsert(t: Tree, keys: seq<string>, text: string)
    requires |keys| >= 1 && forall i :: 0 <= i < |keys| ==> Dot !in keys[i]
    ensures GetNestedValue(Insert(t, keys, text), Join(keys, Dot)) == text
  {
    ResolveInsert(t, keys, text);
    LookupFindsLeaf(Insert(t, keys, text), keys, text);
  }

  /** A parameter value: the source accepts strings and numbers (integers here). */
  datatype ParamValue = Str(s: string) | Num(n: int)

  type Params = map<string, ParamValue>

  /** The decimal digits of `n`, most significant first. */
  function NatToString(n: nat): (s: string)
    ensures |s| >= 1
    ensures forall i :: 0 <= i < |s| ==> '0' <= s[i] <= '9'
  {
    var digit := ['0' + (n % 10) as char];
    if n < 10 then digit else NatToString(n / 10) + digit
  }

  /** The value of `n` read back from its decimal digits. */
  function DigitsValue(s: string): nat
    requires forall i :: 0 <= i < |s| ==> '0' <= s[i] <= '9'
  {
    if |s| == 0 then 0 else 10 * DigitsValue(s[..|s| - 1]) + (s[|s| - 1] - '0') as nat
  }

  /** The decimal digits of `n` read back give `n`. */
  lemma {:induction false} NatToStringValue(n: nat)
    ensures DigitsValue(NatToString(n)) == n
  {
    var s := NatToString(n);
    if n >= 10 {
      NatToStringValue(n / 10);
      assert s[..|s| - 1] == NatToString(n / 10);
    }
  }

  /** A parameter's `toString()`. */
  function ValueText(v: ParamValue): (r: string)
    ensures v.Num? ==> |r| >= 1
  {
    match v
    case Str(s) => s
    case Num(n) => if n < 0 then "-" + NatToString(-n) else NatToString(n)
  }

  /** A word character of a regular expression (`\w`): an ASCII letter, digit or underscore. */
  predicate IsWordChar(c: char) {
    'a' <= c <= 'z' || 'A' <= c <= 'Z' || '0' <= c <= '9' || c == '_'
  }

  /** `s` is one or more word characters. */
  predicate IsWord(s: string) {
    |s| > 0 && forall i :: 0 <= i < |s| ==> IsWordChar(s[i])
  }

  /** The longest run of word characters at the start of `s`. */
  function WordPrefix(s: string): (w: string)
    ensures |w| <= |s| && w == s[..|w|]
    ensures forall i :: 0 <= i < |w| ==> IsWordChar(w[i])
    ensures |w| < |s| ==> !IsWordChar(s[|w|])
  {
    if |s| > 0 && IsWordChar(s[0]) then [s[0]] + WordPrefix(s[1..]) else ""
  }

  /** A word followed by a non-word character has itself as its longest word prefix. */
  lemma {:induction false} WordPrefixOfWord(w: string, rest: string)
    requires forall i :: 0 <= i < |w| ==> IsWordChar(w[i])
    requires |rest| > 0 && !IsWordChar(rest[0])
    ensures WordPrefix(w + rest) == w
    decreases |w|
  {
    if |w| > 0 {
      WordPrefixOfWord(w[1..], rest);
      assert (w + rest)[1..] == w[1..] + rest;
    }
  }

  /** The placeholder text for key `w`. */
  function Marker(w: string): string {
    "{{" + w + "}}"
  }

  /**
   * The key of the placeholder `{{w}}` that starts `s`, if one does: two left
   * braces, one or more word characters, two right braces (the pattern
   * `\{\{(\w+)\}\}` anchored at the first character).
   */
  function PlaceholderAt(s: string): (r: Option<string>)
    ensures r.Some? ==> IsWord(r.value) && |Marker(r.value)| <= |s| && s[..|Marker(r.value)|] == Marker(r.value)
  {
    if |s| >= 2 && s[0] == '{' && s[1] == '{' then
      var w := WordPrefix(s[2..]);
      if 0 < |w| && |w| + 4 <= |s| && s[|w| + 2] == '}' && s[|w| + 3] == '}' then Some(w) else None
    else None
  }

  /** A string that starts with the marker of a word starts with that placeholder. */
  lemma PlaceholderAtMarker(w: string, rest: string)
    requires IsWord(w)
    ensures PlaceholderAt(Marker(w) + rest) == Some(w)
  {
    var s := Marker(w) + rest;
    assert s[2..] == w + ("}}" + rest);
    WordPrefixOfWord(w, "}}" + rest);
  }

  /** What a placeholder with key `w` becomes: the value's text, or the placeholder itself when `w` is not a parameter. */
  function Replacement(w: string, params: Params): string {
    if w in params then ValueText(params[w]) else Marker(w)
  }

  /**
   * The single left-to-right replacement pass (`text.replace` with the global
   * placeholder pattern): each placeholder found is replaced and scanning resumes
   * after it, so replacement text is never scanned again.
   */
  function Substitute(s: string, params: Params): string
    decreases |s|
  {
    if |s| == 0 then ""
    else match PlaceholderAt(s)
      case Some(w) => Replacement(w, params) + Substitute(s[|Marker(w)|..], params)
      case None => [s[0]] + Substitute(s[1..], params)
  }

  /** `interpolate`: no parameters object leaves the text as it is; otherwise one replacement pass. */
  function Interpolate(text: string, params: Option<Params>): string {
    match params
    case None => text
    case Some(p) => Substitute(text, p)
  }

  /** Text in which no position starts a placeholder is unchanged by any parameters. */
  lemma {:induction false} NoPlaceholderUnchanged(s: string, params: Params)
    requires forall i :: 0 <= i < |s| ==> PlaceholderAt(s[i..]).None?
    ensures Substitute(s, params) == s
    decreases |s|
  {
    if |s| > 0 {
      assert PlaceholderAt(s[0..]).None? && s[0..] == s;
      forall i | 0 <= i < |s[1..]|
        ensures PlaceholderAt(s[1..][i..]).None?
      {
        assert s[1..][i..] == s[i + 1..];
      }
      NoPlaceholderUnchanged(s[1..], params);
      assert [s[0]] + s[1..] == s;
    }
  }

  /** A template piece: literal text without left braces, or a placeholder for a word key. */
  datatype Piece = Text(s: string) | Hole(key: string)

  predicate WellFormedPiece(p: Piece) {
    match p
    case Text(s) => '{' !in s
    case Hole(key) => IsWord(key)
  }

  /** The text of a template, placeholders written as `{{key}}`. */
  function TemplateText(ps: seq<Piece>): string
    decreases |ps|
  {
    if |ps| == 0 then ""
    else (match ps[0] case Text(s) => s case Hole(key) => Marker(key)) + TemplateText(ps[1..])
  }

  /** The template with each placeholder replaced by its parameter, or kept when it has none. */
  function Render(ps: seq<Piece>, params: Params): string
    decreases |ps|
  {
    if |ps| == 0 then ""
    else (match ps[0] case Text(s) => s case Hole(key) => Replacement(key, params)) + Render(ps[1..], params)
  }

  /** Literal text without left braces passes through the replacement pass unchanged. */
  lemma {:induction false} SubstituteText(t: string, u: string, params: Params)
    requires '{' !in t
    ensures Substitute(t + u, params) == t + Substitute(u, params)
    decreases |t|
  {
    if |t| > 0 {
      assert (t + u)[0] == t[0];
      assert (t + u)[1..] == t[1..] + u;
      SubstituteText(t[1..], u, params);
      assert [t[0]] + t[1..] == t;
    } else {
      assert t + u == u;
    }
  }

  /** A placeholder at the front is replaced and the pass resumes right after it. */
  lemma SubstituteHole(w: string, u: string, params: Params)
    requires IsWord(w)
    ensures Substitute(Marker(w) + u, params) == Replacement(w, params) + Substitute(u, params)
  {
    PlaceholderAtMarker(w, u);
    assert (Marker(w) + u)[|Marker(w)|..] == u;
  }

  /**
   * Interpolating a template's text replaces every placeholder whose key is a
   * parameter by the value's text, keeps every other placeholder verbatim, and leaves
   * the literal text alone; inserted values are not scanned again.
   */
  lemma {:induction false} FillTemplate(ps: seq<Piece>, params: Params)
    requires forall i :: 0 <= i < |ps| ==> WellFormedPiece(ps[i])
    ensures Interpolate(TemplateText(ps), Some(params)) == Render(ps, params)
    decreases |ps|
  {
    if |ps| > 0 {
      FillTemplate(ps[1..], params);
      match ps[0]
      case Text(s) => SubstituteText(s, TemplateText(ps[1..]), params);
      case Hole(key) => SubstituteHole(key, TemplateText(ps[1..]), params);
    }
  }

  /** The number 0 is substituted as "0", not treated as missing. */
  lemma ZeroIsSubstituted(w: string, params: Params)
    requires IsWord(w) && w in params && params[w] == Num(0)
    ensures Interpolate(Marker(w), Some(params)) == "0"
  {
    SubstituteHole(w, "", params);
    assert Marker(w) + "" == Marker(w);
  }

  /** A replacement that itself looks like a placeholder is left as inserted. */
  lemma SinglePass()
    ensures Interpolate("{{a}}", Some(map["a" := Str("{{b}}"), "b" := Str("x")])) == "{{b}}"
  {
    SubstituteHole("a", "", map["a" := Str("{{b}}"), "b" := Str("x")]);
    assert Marker("a") + "" == "{{a}}";
  }

  /** The two namespaces of a locale. */
  datatype Namespace = Common | Translation

  datatype Locale = Locale(common: Tree, translation: Tree) {
    function Namespace(ns: Namespace): Tree {
      match ns
      case Common => common
      case Translation => translation
    }
  }

  /** The translators' `common` and `t`: look the key up in the namespace, then interpolate the parameters into it. */
  function Translate(locale: Locale, ns: Namespace, key: string, params: Option<Params>): string {
    Interpolate(GetNestedValue(locale.Namespace(ns), key), params)
  }

  /**
   * A key that cannot be resolved to a string falls back to the key itself, and the
   * parameters are then interpolated into the key.
   */
  lemma TranslateFallback(locale: Locale, ns: Namespace, key: string, params: Option<Params>)
    requires !Resolve(locale.Namespace(ns), Split(key, Dot)).Some? || !Resolve(locale.Namespace(ns), Split(key, Dot)).value.Leaf?
    ensures Translate(locale, ns, key, params) == Interpolate(key, params)
  {
  }
}
