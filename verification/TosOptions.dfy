/** parseTosfsOptions of pkg/tos/util.go: the volume attributes, visited in whatever order the map is
    iterated, become the options of an s3fs mount. */
module TosOptions {

  // ----- strings.Index and the URL -----

  predicate Occurs(s: string, sub: string, i: nat) {
    i + |sub| <= |s| && s[i..i + |sub|] == sub
  }

  /** The first occurrence of `sub` at or after `from`, -1 if there is none. */
  function IndexFrom(s: string, sub: string, from: nat): (i: int)
    ensures -1 <= i && (i >= 0 ==> i >= from && Occurs(s, sub, i))
    ensures forall j: nat | from <= j && (i == -1 || j < i) :: !Occurs(s, sub, j)
    decreases |s| - from
  {
    if Occurs(s, sub, from) then from
    else if from < |s| then IndexFrom(s, sub, from + 1)
    else -1
  }

  /** strings.Index */
  function Index(s: string, sub: string): int {
    IndexFrom(s, sub, 0)
  }

  predicate Contains(s: string, sub: string) {
    Index(s, sub) >= 0
  }

  /** The slice with a bound beyond a URL of fewer than two characters. */
  predicate UrlPanics(v: string) {
    !Contains(v, "-s3") && !Contains(v, "tos") && |v| < 2
  }

  /** Where "-s3" goes: behind the first "tos", or, when there is none, behind the second character. */
  function InsertAt(v: string): (i: nat)
    requires !UrlPanics(v)
    ensures i <= |v|
  {
    Index(v, "tos") + 3
  }

  function RewriteUrl(v: string): string
    requires !UrlPanics(v)
  {
    if Contains(v, "-s3") then v else v[..InsertAt(v)] + "-s3" + v[InsertAt(v)..]
  }

  lemma OccursIn(s: string, sub: string, i: nat)
    requires Occurs(s, sub, i)
    ensures Contains(s, sub)
  {
  }

  lemma Inserted(v: string, i: nat)
    requires i <= |v|
    ensures var r := v[..i] + "-s3" + v[i..];
      && i + 3 <= |r| && r[i..i + 3] == "-s3" && r[..i] + r[i + 3..] == v && Contains(r, "-s3")
      && (i >= 3 ==> r[i - 3..i] == v[i - 3..i])
  {
    var r := v[..i] + "-s3" + v[i..];
    assert r[i..i + 3] == "-s3" && r[i + 3..] == v[i..] && r[..i] == v[..i];
    OccursIn(r, "-s3", i);
  }

  /** The URL is cut behind its first "tos", or behind the second character when it has none. */
  lemma CutAt(v: string)
    requires !UrlPanics(v)
    ensures var i := InsertAt(v);
      && (!Contains(v, "tos") ==> i == 2)
      && (Contains(v, "tos") ==> i >= 3 && v[i - 3..i] == "tos" && forall j: nat | j < i - 3 :: !Occurs(v, "tos", j))
  {
  }

  /** The rewritten URL names an s3 endpoint, rewriting again changes nothing, and taking the inserted
      characters out gives back the original, which was cut behind its first "tos" whenever it had one. */
  lemma UrlRewritten(v: string)
    requires !UrlPanics(v)
    ensures var r := RewriteUrl(v);
      && Contains(r, "-s3") && !UrlPanics(r) && RewriteUrl(r) == r
      && (Contains(v, "-s3") ==> r == v)
      && (!Contains(v, "-s3") ==>
            && var i := InsertAt(v);
               && i + 3 <= |r| && r[i..i + 3] == "-s3" && r[..i] + r[i + 3..] == v
               && (!Contains(v, "tos") ==> i == 2)
               && (Contains(v, "tos") ==> i >= 3 && r[i - 3..i] == "tos" && forall j: nat | j < i - 3 :: !Occurs(v, "tos", j)))
  {
    hide Contains, InsertAt;
    if !Contains(v, "-s3") {
      CutAt(v);
      Inserted(v, InsertAt(v));
    }
  }

  // ----- The attributes -----

  /** unicode.ToLower, as far as it can produce one of the parameter names. */
  function LowerChar(c: char): char {
    if 'A' <= c <= 'Z' then (c as int + 32) as char
    else if c == 0x130 as char then 'i'
    else if c == 0x212A as char then 'k'
    else c
  }

  function Lower(s: string): string {
    if s == "" then "" else [LowerChar(s[0])] + Lower(s[1..])
  }

  /** The character is this lower-case one, its capital, or the other letter whose lower case it is. */
  ghost predicate SpellsChar(c: char, l: char) {
    || (c == l && !('A' <= c <= 'Z') && c != 0x130 as char && c != 0x212A as char)
    || ('a' <= l <= 'z' && c == "ABCDEFGHIJKLMNOPQRSTUVWXYZ"[l as int - 'a' as int])
    || (l == 'i' && c == 0x130 as char)
    || (l == 'k' && c == 0x212A as char)
  }

  /** The key is the name in some mixture of cases. */
  ghost predicate Spells(key: string, name: string) {
    |key| == |name| && forall i | 0 <= i < |key| :: SpellsChar(key[i], name[i])
  }

  lemma LowerCharIs(c: char, l: char)
    ensures LowerChar(c) == l <==> SpellsChar(c, l)
  {
    var letters := "ABCDEFGHIJKLMNOPQRSTUVWXYZ";
    assert forall i | 0 <= i < 26 :: letters[i] as int == 65 + i;
  }

  lemma {:induction false} LowerIs(key: string, name: string)
    ensures Lower(key) == name <==> Spells(key, name)
  {
    hide SpellsChar, LowerChar;
    if key != "" && name != "" {
      LowerCharIs(key[0], name[0]);
      LowerIs(key[1..], name[1..]);
      assert key == [key[0]] + key[1..] && name == [name[0]] + name[1..];
    }
  }

  datatype Param = Url | Bucket | Path | AdditionalArgs | DbgLevel | Other

  function ParamOf(key: string): Param {
    var k := Lower(key);
    if k == "url" then Url
    else if k == "bucket" then Bucket
    else if k == "path" then Path
    else if k == "additional_args" then AdditionalArgs
    else if k == "dbglevel" then DbgLevel
    else Other
  }

  datatype Options = Options(url: string, bucket: string, path: string, additionalArgs: string, dbgLevel: string)

  const NO_OPTIONS := Options("", "", "", "", "")
  const DEFAULT_DBG_LEVEL := "err"

  datatype Outcome = Panicked | Invalid | Parsed(options: Options)

  function Field(o: Options, p: Param): string {
    match p
    case Url => o.url
    case Bucket => o.bucket
    case Path => o.path
    case AdditionalArgs => o.additionalArgs
    case DbgLevel => o.dbgLevel
    case Other => ""
  }

  predicate Panics(attributes: map<string, string>) {
    exists k | k in attributes :: ParamOf(k) == Url && UrlPanics(attributes[k])
  }

  /** What the attribute `key` sets its parameter to. */
  function Value(key: string, v: string): string {
    match ParamOf(key)
    case Url => if UrlPanics(v) then "" else RewriteUrl(v)
    case Other => ""
    case _ => v
  }

  function Apply(o: Options, key: string, v: string): (r: Options)
    ensures forall p: Param :: Field(r, p) == if p == ParamOf(key) then Value(key, v) else Field(o, p)
  {
    match ParamOf(key)
    case Url => o.(url := Value(key, v))
    case Bucket => o.(bucket := v)
    case Path => o.(path := v)
    case AdditionalArgs => o.(additionalArgs := v)
    case DbgLevel => o.(dbgLevel := v)
    case Other => o
  }

  function WithDefault(o: Options): Options {
    if o.dbgLevel == "" then o.(dbgLevel := DEFAULT_DBG_LEVEL) else o
  }

  /** The options after visiting the keys in the given order. */
  function ParseInOrder(attributes: map<string, string>, order: seq<string>): Options
    requires forall k | k in order :: k in attributes
  {
    if order == [] then NO_OPTIONS else
      var last := order[|order| - 1];
      Apply(ParseInOrder(attributes, order[..|order| - 1]), last, attributes[last])
  }

  ghost predicate IsOrder(order: seq<string>, keys: set<string>) {
    && (forall k :: k in order <==> k in keys)
    && (forall i, j | 0 <= i < j < |order| :: order[i] != order[j])
  }

  /** validateTosfsOptions */
  function Validated(o: Options): Outcome {
    if o.url == "" || o.bucket == "" then Invalid else Parsed(o)
  }

  // ----- The options by attribute name -----

  /** Some attribute of this name, in some mixture of cases, has this value. */
  ghost predicate Sets(attributes: map<string, string>, name: string, value: string) {
    exists k | k in attributes :: Spells(k, name) && attributes[k] == value
  }

  ghost predicate Names(attributes: map<string, string>, name: string) {
    exists k | k in attributes :: Spells(k, name)
  }

  /** Each option has the value of an attribute of its name, the URL after rewriting; what no attribute
      names is empty, and an empty debug level is "err". */
  ghost predicate FromAttributes(attributes: map<string, string>, o: Options) {
    && o.url != "" && (exists k | k in attributes :: Spells(k, "url") && |attributes[k]| >= 2 && o.url == RewriteUrl(attributes[k]))
    && o.bucket != "" && Sets(attributes, "bucket", o.bucket)
    && (if Names(attributes, "path") then Sets(attributes, "path", o.path) else o.path == "")
    && (if Names(attributes, "additional_args") then Sets(attributes, "additional_args", o.additionalArgs)
        else o.additionalArgs == "")
    && o.dbgLevel != ""
    && (Sets(attributes, "dbglevel", o.dbgLevel)
        || (o.dbgLevel == "err" && (Sets(attributes, "dbglevel", "") || !Names(attributes, "dbglevel"))))
  }

  lemma UrlPanicsIff(v: string)
    ensures UrlPanics(v) <==> |v| < 2
  {
  }

  /** The option that a key stands for, by name. */
  lemma ParamByName(key: string)
    ensures ParamOf(key) == Url <==> Spells(key, "url")
    ensures ParamOf(key) == Bucket <==> Spells(key, "bucket")
    ensures ParamOf(key) == Path <==> Spells(key, "path")
    ensures ParamOf(key) == AdditionalArgs <==> Spells(key, "additional_args")
    ensures ParamOf(key) == DbgLevel <==> Spells(key, "dbglevel")
  {
    hide Spells, Lower;
    LowerIs(key, "url");
    LowerIs(key, "bucket");
    LowerIs(key, "path");
    LowerIs(key, "additional_args");
    LowerIs(key, "dbglevel");
    assert "url"[0] != "bucket"[0] && "url"[0] != "path"[0] && "bucket"[0] != "path"[0];
    assert |"additional_args"| == 15 && |"dbglevel"| == 8 && |"bucket"| == 6 && |"path"| == 4 && |"url"| == 3;
  }

  /** What a key of this parameter sets, or the empty string when there is none. */
  lemma FieldByName(attributes: map<string, string>, order: seq<string>, p: Param, name: string)
    requires IsOrder(order, attributes.Keys) && p !in {Other, Url}
    requires forall k :: ParamOf(k) == p <==> Spells(k, name)
    ensures var v := Field(ParseInOrder(attributes, order), p);
      if Names(attributes, name) then Sets(attributes, name, v) else v == ""
  {
    hide ParamOf, Spells, ParseInOrder;
    LastDecides(attributes, order, p);
  }

  lemma UrlByName(attributes: map<string, string>, order: seq<string>)
    requires IsOrder(order, attributes.Keys) && !Panics(attributes)
    ensures var v := Field(ParseInOrder(attributes, order), Url);
      if Names(attributes, "url")
      then v != "" && exists k | k in attributes :: Spells(k, "url") && |attributes[k]| >= 2 && v == RewriteUrl(attributes[k])
      else v == ""
  {
    hide ParamOf, Spells, ParseInOrder, UrlPanics, RewriteUrl;
    forall k ensures ParamOf(k) == Url <==> Spells(k, "url") {
      ParamByName(k);
    }
    forall v: string ensures UrlPanics(v) <==> |v| < 2 {
      UrlPanicsIff(v);
    }
    forall v: string | |v| >= 2 ensures RewriteUrl(v) != "" {
      UrlRewritten(v);
    }
    LastDecides(attributes, order, Url);
  }

  lemma OptionsByName(attributes: map<string, string>, order: seq<string>)
    requires IsOrder(order, attributes.Keys) && !Panics(attributes)
    ensures var r := Validated(WithDefault(ParseInOrder(attributes, order)));
      && (r.Parsed? ==> FromAttributes(attributes, r.options))
      && (r.Invalid? ==> !Names(attributes, "url") || !Names(attributes, "bucket") || Sets(attributes, "bucket", ""))
  {
    hide ParamOf, Spells, ParseInOrder, Panics, RewriteUrl, Names, Sets;
    forall k
      ensures ParamOf(k) == Bucket <==> Spells(k, "bucket")
      ensures ParamOf(k) == Path <==> Spells(k, "path")
      ensures ParamOf(k) == AdditionalArgs <==> Spells(k, "additional_args")
      ensures ParamOf(k) == DbgLevel <==> Spells(k, "dbglevel")
    {
      ParamByName(k);
    }
    UrlByName(attributes, order);
    FieldByName(attributes, order, Bucket, "bucket");
    FieldByName(attributes, order, Path, "path");
    FieldByName(attributes, order, AdditionalArgs, "additional_args");
    FieldByName(attributes, order, DbgLevel, "dbglevel");
  }

  lemma PanicsByName(attributes: map<string, string>)
    ensures Panics(attributes) <==> exists k | k in attributes :: Spells(k, "url") && |attributes[k]| < 2
  {
    hide ParamOf, Spells, UrlPanics;
    forall k ensures ParamOf(k) == Url <==> Spells(k, "url") {
      ParamByName(k);
    }
    forall v: string ensures UrlPanics(v) <==> |v| < 2 {
      UrlPanicsIff(v);
    }
  }

  /** The map is iterated in an order of its own, which no caller can rely on. */
  method ParseTosfsOptions(attributes: map<string, string>) returns (r: Outcome, ghost order: seq<string>)
    ensures r == Panicked <==> Panics(attributes)
    ensures r != Panicked ==>
              IsOrder(order, attributes.Keys) && r == Validated(WithDefault(ParseInOrder(attributes, order)))
    ensures r == Panicked <==> exists k | k in attributes :: Spells(k, "url") && |attributes[k]| < 2
    ensures r.Parsed? ==> FromAttributes(attributes, r.options)
    ensures r.Invalid? ==> !Names(attributes, "url") || !Names(attributes, "bucket") || Sets(attributes, "bucket", "")
  {
    hide Spells, FromAttributes, Names, Sets, ParamOf, UrlPanics, RewriteUrl, Value;
    PanicsByName(attributes);
    var options := NO_OPTIONS;
    var left := attributes.Keys;
    order := [];
    while left != {}
      invariant left <= attributes.Keys && IsOrder(order, attributes.Keys - left)
      invariant options == ParseInOrder(attributes, order)
      invariant forall k | k in attributes && k !in left :: !(ParamOf(k) == Url && UrlPanics(attributes[k]))
      decreases |left|
    {
      var k :| k in left;
      var v := attributes[k];
      if ParamOf(k) == Url && UrlPanics(v) {
        return Panicked, order;
      }
      options := Apply(options, k, v);
      left := left - {k};
      assert (order + [k])[..|order|] == order;
      order := order + [k];
    }
    OptionsByName(attributes, order);
    r := Validated(WithDefault(options));
  }

  // ----- Independence of the order -----

  function Defaulted(p: Param, v: string): string {
    if p == DbgLevel && v == "" then DEFAULT_DBG_LEVEL else v
  }

  /** Keys that differ only in case set their parameter to the same value. */
  ghost predicate NoClash(attributes: map<string, string>) {
    forall k, l | k in attributes && l in attributes && ParamOf(k) == ParamOf(l) ::
      Defaulted(ParamOf(k), Value(k, attributes[k])) == Defaulted(ParamOf(l), Value(l, attributes[l]))
  }

  /** The last key visited for a parameter decides it. */
  lemma {:induction false} LastDecides(attributes: map<string, string>, order: seq<string>, p: Param)
    requires forall k | k in order :: k in attributes
    ensures var o := Field(ParseInOrder(attributes, order), p);
      || (o == "" && forall k | k in order :: ParamOf(k) != p)
      || (exists k | k in order :: ParamOf(k) == p && o == Value(k, attributes[k]))
  {
    hide ParamOf, Value, Apply;
    if order != [] {
      var front, last := order[..|order| - 1], order[|order| - 1];
      LastDecides(attributes, front, p);
      assert order == front + [last];
    }
  }

  lemma SameFields(a: Options, b: Options)
    requires forall p: Param :: Field(a, p) == Field(b, p)
    ensures a == b
  {
    assert Field(a, Url) == Field(b, Url) && Field(a, Bucket) == Field(b, Bucket) && Field(a, Path) == Field(b, Path);
    assert Field(a, AdditionalArgs) == Field(b, AdditionalArgs) && Field(a, DbgLevel) == Field(b, DbgLevel);
  }

  lemma AnyOrder(attributes: map<string, string>, order: seq<string>, order': seq<string>)
    requires NoClash(attributes) && IsOrder(order, attributes.Keys) && IsOrder(order', attributes.Keys)
    ensures WithDefault(ParseInOrder(attributes, order)) == WithDefault(ParseInOrder(attributes, order'))
  {
    hide ParamOf, Value, ParseInOrder;
    var a, b := WithDefault(ParseInOrder(attributes, order)), WithDefault(ParseInOrder(attributes, order'));
    forall p: Param ensures Field(a, p) == Field(b, p) {
      LastDecides(attributes, order, p);
      LastDecides(attributes, order', p);
    }
    SameFields(a, b);
  }

  lemma {:induction false} SomeOrder(keys: set<string>) returns (order: seq<string>)
    ensures IsOrder(order, keys)
  {
    if keys == {} {
      order := [];
    } else {
      var k :| k in keys;
      order := SomeOrder(keys - {k});
      order := order + [k];
    }
  }

  lemma EndingWith(attributes: map<string, string>, k: string) returns (order: seq<string>)
    requires k in attributes
    ensures IsOrder(order, attributes.Keys)
    ensures ParamOf(k) != Other ==> Field(ParseInOrder(attributes, order), ParamOf(k)) == Value(k, attributes[k])
  {
    var front := SomeOrder(attributes.Keys - {k});
    order := front + [k];
    assert order[..|order| - 1] == front;
  }

  lemma DefaultField(o: Options, p: Param)
    ensures Field(WithDefault(o), p) == Defaulted(p, Field(o, p))
  {
  }

  lemma ClashShows(attributes: map<string, string>) returns (order: seq<string>, order': seq<string>)
    requires !NoClash(attributes)
    ensures IsOrder(order, attributes.Keys) && IsOrder(order', attributes.Keys)
    ensures WithDefault(ParseInOrder(attributes, order)) != WithDefault(ParseInOrder(attributes, order'))
  {
    hide ParseInOrder, Field, WithDefault, IsOrder;
    var k, l :| k in attributes && l in attributes && ParamOf(k) == ParamOf(l)
                && Defaulted(ParamOf(k), Value(k, attributes[k])) != Defaulted(ParamOf(l), Value(l, attributes[l]));
    order := EndingWith(attributes, k);
    order' := EndingWith(attributes, l);
    DefaultField(ParseInOrder(attributes, order), ParamOf(k));
    DefaultField(ParseInOrder(attributes, order'), ParamOf(k));
  }

  /** Every iteration order gives the same options if and only if no two keys that differ in case alone
      set their parameter to different values. */
  lemma OrderIrrelevant(attributes: map<string, string>)
    ensures NoClash(attributes) <==>
            (forall order, order' | IsOrder(order, attributes.Keys) && IsOrder(order', attributes.Keys) ::
               WithDefault(ParseInOrder(attributes, order)) == WithDefault(ParseInOrder(attributes, order')))
  {
    hide NoClash, ParseInOrder, WithDefault;
    if NoClash(attributes) {
      forall order, order' | IsOrder(order, attributes.Keys) && IsOrder(order', attributes.Keys)
        ensures WithDefault(ParseInOrder(attributes, order)) == WithDefault(ParseInOrder(attributes, order'))
      {
        AnyOrder(attributes, order, order');
      }
    } else {
      var order, order' := ClashShows(attributes);
    }
  }
}
