// The message catalog: dotted-key lookup with fallback to the default locale
// and to the key itself, and rendering of a template with str.format.
module I18nLoader {
  import opened Text
  import opened Values

  /** Walking the key segments from `cur`: None as soon as a segment is absent,
      holds None, or is asked of something that is not a dict. */
  function Resolve(cur: Value, parts: seq<string>): Value
    decreases |parts|
  {
    if parts == [] then cur
    else if !cur.VDict? then VNone
    else
      var next := Get(cur.fields, parts[0]);
      if next == VNone then VNone else Resolve(next, parts[1..])
  }

  /** The root a locale's lookups start from: `self._dict.get(locale) or {}`. */
  function LocaleRoot(catalog: map<string, Value>, locale: string): (r: Value)
    ensures r != VNone
    ensures locale !in catalog ==> r == VDict(map[])
  {
    var data := Get(catalog, locale);
    if Truthy(data) then data else VDict(map[])
  }

  /** `_get_any(locale, key)` as a value. */
  function Lookup(catalog: map<string, Value>, locale: string, key: string): Value {
    Resolve(LocaleRoot(catalog, locale), Split(key, '.'))
  }

  /** Walking a path segment by segment is walking its first part, then the rest. */
  lemma {:induction false} ResolveAppend(v: Value, p: seq<string>, q: seq<string>)
    ensures Resolve(v, p + q) == (var m := Resolve(v, p); if m == VNone then VNone else Resolve(m, q))
    decreases |p|
  {
    if p == [] {
      assert p + q == q;
    } else if v.VDict? {
      var next := Get(v.fields, p[0]);
      assert (p + q)[0] == p[0] && (p + q)[1..] == p[1..] + q;
      if next != VNone {
        ResolveAppend(next, p[1..], q);
      }
    }
  }

  /** The nested dicts `{p0: {p1: ... leaf}}` that hold `leaf` under the path. */
  function Nest(parts: seq<string>, leaf: Value): Value
    decreases |parts|
  {
    if parts == [] then leaf else VDict(map[parts[0] := Nest(parts[1..], leaf)])
  }

  /** Walking the path of a nested entry finds the entry. */
  lemma {:induction false} ResolveNest(parts: seq<string>, leaf: Value)
    requires leaf != VNone
    ensures Resolve(Nest(parts, leaf), parts) == leaf
    decreases |parts|
  {
    if parts != [] {
      ResolveNest(parts[1..], leaf);
      NestNotNone(parts[1..], leaf);
    }
  }

  lemma {:induction false} NestNotNone(parts: seq<string>, leaf: Value)
    requires leaf != VNone
    ensures Nest(parts, leaf) != VNone
  {
  }

  /** A catalog whose locale entry nests `leaf` under the dotted key finds it. */
  lemma {:induction false} LookupNested(catalog: map<string, Value>, locale: string, parts: seq<string>, leaf: Value)
    requires |parts| >= 1
    requires forall i :: 0 <= i < |parts| ==> '.' !in parts[i]
    requires leaf != VNone
    ensures Lookup(catalog[locale := Nest(parts, leaf)], locale, Join(".", parts)) == leaf
  {
    SplitJoin(parts, '.');
    assert Split(Join(".", parts), '.') == parts;
    var root := Nest(parts, leaf);
    assert parts[0] in root.fields;
    assert LocaleRoot(catalog[locale := root], locale) == root;
    ResolveNest(parts, leaf);
  }

  /** Text of a template: a string is used as is, anything else through str(). */
  function TemplateText(tmpl: Value): string {
    if tmpl.VStr? then tmpl.s else Str(tmpl)
  }

  /** The catalog loaded from the locale files, and the locale to fall back to. */
  class I18n {
    const catalog: map<string, Value>
    const defaultLocale: string

    constructor (catalog: map<string, Value>, defaultLocale: string)
      ensures this.catalog == catalog && this.defaultLocale == defaultLocale
    {
      this.catalog := catalog;
      this.defaultLocale := defaultLocale;
    }

    /** `_get_any`: walk the segments of `key`, reassigning the current value. */
    method GetAny(locale: string, key: string) returns (r: Value)
      ensures r == Lookup(catalog, locale, key)
    {
      var parts := Split(key, '.');
      var cur := LocaleRoot(catalog, locale);
      var i := 0;
      while i < |parts|
        invariant 0 <= i <= |parts|
        invariant Resolve(cur, parts[i..]) == Lookup(catalog, locale, key)
      {
        assert parts[i..][0] == parts[i] && parts[i..][1..] == parts[i + 1..];
        if !cur.VDict? {
          return VNone;
        }
        cur := Get(cur.fields, parts[i]);
        if cur == VNone {
          return VNone;
        }
        i := i + 1;
      }
      assert parts[i..] == [];
      return cur;
    }

    /** `t`: the locale's entry, else the default locale's entry, else the key
        itself; never None. */
    function T(key: string, locale: string): (r: Value)
      ensures r != VNone
      ensures Lookup(catalog, locale, key) != VNone ==> r == Lookup(catalog, locale, key)
      ensures Lookup(catalog, locale, key) == VNone && Lookup(catalog, defaultLocale, key) != VNone
        ==> r == Lookup(catalog, defaultLocale, key)
      ensures Lookup(catalog, locale, key) == VNone && Lookup(catalog, defaultLocale, key) == VNone
        ==> r == VStr(key)
    {
      var val := Lookup(catalog, locale, key);
      if val != VNone then val
      else
        var fallback := Lookup(catalog, defaultLocale, key);
        if fallback != VNone then fallback else VStr(key)
    }

    /** `render`: format the template with the variables; on any formatting
        error the unformatted template text is returned. */
    function Render(key: string, locale: string, vars: map<string, Value>): (r: string)
      ensures var text := TemplateText(T(key, locale));
        && (Format(text, vars).Some? ==> r == Format(text, vars).value)
        && (Format(text, vars).None? ==> r == text)
    {
      var text := TemplateText(T(key, locale));
      match Format(text, vars)
      case Some(out) => out
      case None => text
    }
  }

  /** A key in the default locale only is found through the fallback. */
  lemma {:induction false} FallbackToDefault(i18n: I18n, key: string, locale: string)
    requires Lookup(i18n.catalog, locale, key) == VNone
    ensures i18n.T(key, locale) == if Lookup(i18n.catalog, i18n.defaultLocale, key) != VNone
      then Lookup(i18n.catalog, i18n.defaultLocale, key) else VStr(key)
  {
  }

  /** A template without braces renders to itself, whatever the variables. */
  lemma {:induction false} RenderPlain(i18n: I18n, key: string, locale: string, vars: map<string, Value>)
    requires BraceFree(TemplateText(i18n.T(key, locale)))
    ensures i18n.Render(key, locale, vars) == TemplateText(i18n.T(key, locale))
  {
    FormatBraceFree(TemplateText(i18n.T(key, locale)), vars);
  }

  // ---------------------------------------------------------------------
  // str.format with keyword arguments only

  predicate BraceFree(s: string) {
    forall i :: 0 <= i < |s| ==> s[i] != '{' && s[i] != '}'
  }

  predicate AllDigits(s: string) {
    forall i :: 0 <= i < |s| ==> '0' <= s[i] <= '9'
  }

  /** A replacement field that names a keyword argument: not empty, not a
      position, no attribute or index access, no conversion, no format spec. */
  predicate KeywordField(name: string) {
    name != [] && !AllDigits(name)
    && forall i :: 0 <= i < |name| ==> name[i] !in {'{', '}', '.', '[', '!', ':'}
  }

  /** Index of the first '}' in s at or after `from`, if any. */
  function CloseBrace(s: string, from: nat): (r: Option<nat>)
    requires from <= |s|
    ensures r.Some? ==> (from <= r.value < |s| && s[r.value] == '}'
      && forall k :: from <= k < r.value ==> s[k] != '}')
    ensures r.None? ==> forall k :: from <= k < |s| ==> s[k] != '}'
    decreases |s| - from
  {
    if from == |s| then None
    else if s[from] == '}' then Some(from)
    else CloseBrace(s, from + 1)
  }

  /** `template.format(**vars)`: doubled braces stand for one brace, a
      replacement field is replaced by str() of its variable; None where
      Python raises (a lone brace, an unknown name, a positional field). */
  function Format(s: string, vars: map<string, Value>): Option<string>
    decreases |s|
  {
    if s == [] then Some([])
    else if s[0] == '{' then
      if |s| >= 2 && s[1] == '{' then
        match Format(s[2..], vars)
        case Some(rest) => Some("{" + rest)
        case None => None
      else
        match CloseBrace(s, 1)
        case None => None
        case Some(j) =>
          var name := s[1..j];
          if !KeywordField(name) || name !in vars then None
          else
            match Format(s[j + 1..], vars)
            case Some(rest) => Some(Str(vars[name]) + rest)
            case None => None
    else if s[0] == '}' then
      if |s| >= 2 && s[1] == '}' then
        match Format(s[2..], vars)
        case Some(rest) => Some("}" + rest)
        case None => None
      else None
    else
      match Format(s[1..], vars)
      case Some(rest) => Some([s[0]] + rest)
      case None => None
  }

  /** Text without braces formats to itself. */
  lemma {:induction false} FormatBraceFree(s: string, vars: map<string, Value>)
    requires BraceFree(s)
    ensures Format(s, vars) == Some(s)
    decreases |s|
  {
    if s != [] {
      assert BraceFree(s[1..]) by {
        forall i | 0 <= i < |s[1..]| ensures s[1..][i] != '{' && s[1..][i] != '}' {
          assert s[1..][i] == s[i + 1];
        }
      }
      FormatBraceFree(s[1..], vars);
      assert s[0] != '{' && s[0] != '}';
      assert [s[0]] + s[1..] == s;
    }
  }

  /** Doubling every brace: how a literal text is written as a template. */
  function EscapeBraces(s: string): string {
    if s == [] then []
    else (if s[0] == '{' then "{{" else if s[0] == '}' then "}}" else [s[0]]) + EscapeBraces(s[1..])
  }

  /** A template written by doubling the braces of a text formats back to that text. */
  lemma {:induction false} FormatEscapeBraces(s: string, vars: map<string, Value>)
    ensures Format(EscapeBraces(s), vars) == Some(s)
    decreases |s|
  {
    if s != [] {
      FormatEscapeBraces(s[1..], vars);
      var e := EscapeBraces(s);
      if s[0] == '{' {
        assert e[0] == '{' && e[1] == '{' && e[2..] == EscapeBraces(s[1..]);
      } else if s[0] == '}' {
        assert e[0] == '}' && e[1] == '}' && e[2..] == EscapeBraces(s[1..]);
      } else {
        assert e[0] == s[0] && e[1..] == EscapeBraces(s[1..]);
      }
      assert [s[0]] + s[1..] == s;
    }
  }

  /** A single named field between brace-free texts is replaced by str() of
      its variable. */
  lemma {:induction false} FormatOneField(a: string, name: string, b: string, vars: map<string, Value>)
    requires BraceFree(a) && BraceFree(b)
    requires KeywordField(name) && name in vars
    ensures Format(a + "{" + name + "}" + b, vars) == Some(a + Str(vars[name]) + b)
  {
    var field := "{" + name + "}" + b;
    FormatBraceFree(b, vars);
    FieldFirst(name, b, vars);
    FieldAfterText(a, field, vars);
    Regroup(a, "{", name, "}", b);
    assert a + (Str(vars[name]) + b) == a + Str(vars[name]) + b;
  }

  /** Concatenation regrouped: a template split as text then field. */
  lemma {:induction false} Regroup(a: string, open: string, name: string, close: string, b: string)
    ensures a + open + name + close + b == a + (open + name + close + b)
  {
  }

  /** A template that opens with a named field: the field is replaced and
      the rest is formatted. */
  lemma {:induction false} FieldFirst(name: string, rest: string, vars: map<string, Value>)
    requires KeywordField(name) && name in vars && Format(rest, vars).Some?
    ensures Format("{" + name + "}" + rest, vars) == Some(Str(vars[name]) + Format(rest, vars).value)
  {
    var field := "{" + name + "}" + rest;
    var j := |name| + 1;
    FieldCloses(name, rest);
    assert field[1..j] == name;
    assert field[j + 1..] == rest;
    assert field[0] == '{' && field[1] == name[0] && name[0] != '{';
  }

  /** The brace that closes a named field is the one after its name. */
  lemma {:induction false} FieldCloses(name: string, rest: string)
    requires KeywordField(name)
    ensures CloseBrace("{" + name + "}" + rest, 1) == Some(|name| + 1)
  {
    var field := "{" + name + "}" + rest;
    var j := |name| + 1;
    assert field[j] == '}';
    assert forall k :: 1 <= k < j ==> field[k] == name[k - 1];
    CloseBraceAt(field, 1, j);
  }

  lemma {:induction false} CloseBraceAt(s: string, from: nat, j: nat)
    requires from <= j < |s| && s[j] == '}'
    requires forall k :: from <= k < j ==> s[k] != '}'
    ensures CloseBrace(s, from) == Some(j)
    decreases j - from
  {
    if from < j {
      CloseBraceAt(s, from + 1, j);
    }
  }

  /** Brace-free text before a template passes through unchanged. */
  lemma {:induction false} FieldAfterText(a: string, t: string, vars: map<string, Value>)
    requires BraceFree(a)
    ensures Format(t, vars).Some? ==> Format(a + t, vars) == Some(a + Format(t, vars).value)
    ensures Format(t, vars).None? ==> Format(a + t, vars).None?
    decreases |a|
  {
    if a != [] {
      assert (a + t)[0] == a[0] && (a + t)[1..] == a[1..] + t;
      assert BraceFree(a[1..]) by {
        forall i | 0 <= i < |a[1..]| ensures a[1..][i] != '{' && a[1..][i] != '}' {
          assert a[1..][i] == a[i + 1];
        }
      }
      FieldAfterText(a[1..], t, vars);
      assert a[0] != '{' && a[0] != '}';
      if Format(t, vars).Some? {
        var rest := Format(t, vars).value;
        assert [a[0]] + (a[1..] + rest) == a + rest;
      }
    } else {
      assert a + t == t;
      if Format(t, vars).Some? {
        assert a + Format(t, vars).value == Format(t, vars).value;
      }
    }
  }

  /** A field naming a variable that is not supplied makes the whole format fail. */
  lemma {:induction false} MissingVariableFails(a: string, name: string, b: string, vars: map<string, Value>)
    requires BraceFree(a) && BraceFree(name)
    requires name !in vars
    ensures Format(a + "{" + name + "}" + b, vars) == None
  {
    var field := "{" + name + "}" + b;
    FieldAfterText(a, field, vars);
    var j := |name| + 1;
    assert forall k :: 1 <= k < j ==> field[k] == name[k - 1];
    CloseBraceAt(field, 1, j);
    assert field[1..j] == name;
    Regroup(a, "{", name, "}", b);
  }
}
