/** The APK index loader and dependency resolver. */
module Packages {
  import opened Wrappers
  import opened Text

  type Name = string
  type Token = string

  datatype Package = Package(name: Name, version: string, repo: string, depends: seq<Token>, provided: seq<Token>)

  type Index = map<Name, Package>
  type Providers = map<Name, Name>
  type Resolution = Result<seq<Package>, Name>

  // ---- tokens ----

  const Markers := "!?<>=~"

  /** The part left of the first occurrence of a character, or everything. */
  function LeftOf(s: string, c: char): (t: string)
    ensures c !in t && t <= s && (if c in s then |t| < |s| && s[|t|] == c else t == s)
  {
    if s == [] || s[0] == c then [] else [s[0]] + LeftOf(s[1..], c)
  }

  /** The part before the first of several characters. */
  function Before(s: string, stops: string): (t: string)
    ensures t <= s && (|t| < |s| ==> s[|t|] in stops)
    ensures forall c :: c in t ==> c in s && c !in stops
  {
    if s == [] || s[0] in stops then [] else [s[0]] + Before(s[1..], stops)
  }

  /** The name a dependency token asks for: what stands before the first
      constraint marker, trimmed. */
  function StripConstraint(token: Token): string {
    Trim(Before(Trim(token), Markers))
  }

  lemma {:induction false} CutOneMore(s: string, stops: string, c: char)
    ensures LeftOf(Before(s, stops), c) == Before(s, stops + [c])
  {
    if s != [] {
      CutOneMore(s[1..], stops, c);
      assert s[0] in stops + [c] <==> s[0] in stops || s[0] == c;
    }
  }

  lemma {:induction false} NoStops(s: string)
    ensures Before(s, "") == s
  {
    if s != [] { NoStops(s[1..]); }
  }

  lemma {:induction false} NothingToCut(s: string, stops: string)
    requires forall c :: c in s ==> c !in stops
    ensures Before(s, stops) == s
  {
    if s != [] { NothingToCut(s[1..], stops); }
  }

  /** Cuts at each marker in turn; the order of the markers does not matter. */
  method CutConstraint(token: Token) returns (name: string)
    ensures name == StripConstraint(token)
  {
    var value := Trim(token);
    NoStops(value);
    for k := 0 to |Markers|
      invariant value == Before(Trim(token), Markers[..k])
    {
      CutOneMore(Trim(token), Markers[..k], Markers[k]);
      assert Markers[..k] + [Markers[k]] == Markers[..k + 1];
      value := LeftOf(value, Markers[k]);
    }
    assert Markers[..|Markers|] == Markers;
    name := Trim(value);
  }

  /** A name is its own token: stripping again changes nothing. */
  lemma {:induction false} StripIdempotent(token: Token)
    ensures StripConstraint(StripConstraint(token)) == StripConstraint(token)
  {
    var name := StripConstraint(token);
    TrimIdempotent(Before(Trim(token), Markers));
    NothingToCut(name, Markers);
  }

  /** Shared libraries and commands exist only through a provider. */
  predicate IsVirtual(dep: string) {
    "so:" <= dep || "cmd:" <= dep
  }

  function NormalizeDep(providers: Providers, token: Token): Option<Name> {
    var dep := StripConstraint(token);
    if dep == "" then None
    else if IsVirtual(dep) then if dep in providers then Some(providers[dep]) else None
    else Some(if dep in providers then providers[dep] else dep)
  }

  // ---- what a resolution is ----

  ghost predicate Includes(providers: Providers, tokens: seq<Token>, names: set<Name>) {
    forall i :: 0 <= i < |tokens| && NormalizeDep(providers, tokens[i]).Some? ==>
      NormalizeDep(providers, tokens[i]).value in names
  }

  /** A set of names closed under the dependencies of the packages it names. */
  ghost predicate Covers(packages: Index, providers: Providers, wanted: seq<Token>, names: set<Name>) {
    && Includes(providers, wanted, names)
    && forall n :: n in names && n in packages ==> Includes(providers, packages[n].depends, names)
  }

  /** A name every closed set must contain. */
  ghost predicate Needed(packages: Index, providers: Providers, wanted: seq<Token>, n: Name) {
    forall names: set<Name> :: Covers(packages, providers, wanted, names) ==> n in names
  }

  ghost function NamesOf(list: seq<Package>): set<Name> {
    set p | p in list :: p.name
  }

  /** Success lists, in name order and once each, exactly the needed packages;
      failure names a needed package that does not exist. */
  ghost predicate IsResolution(packages: Index, providers: Providers, wanted: seq<Token>, r: Resolution) {
    match r
    case Ok(list) =>
      && Covers(packages, providers, wanted, NamesOf(list))
      && (forall n :: n in NamesOf(list) ==> Needed(packages, providers, wanted, n))
      && (forall i :: 0 <= i < |list| ==> list[i].name in packages && list[i] == packages[list[i].name])
      && ByName(list)
    case Err(missing) => missing !in packages && Needed(packages, providers, wanted, missing)
  }

  // ---- the resolver ----

  ghost predicate WellKeyed(packages: Index) {
    forall n :: n in packages ==> packages[n].name == n
  }

  /** `sort_by` on names. */
  method SortByName(packages: seq<Package>) returns (sorted: seq<Package>)
    requires forall i, j :: 0 <= i < j < |packages| ==> packages[i].name != packages[j].name
    ensures (forall p :: p in sorted <==> p in packages) && ByName(sorted)
  {
    hide Less, Inserted;
    sorted := [];
    for k := 0 to |packages|
      invariant (forall p :: p in sorted <==> p in packages[..k]) && ByName(sorted)
    {
      var at := |sorted|;
      while at > 0 && Less(packages[k].name, sorted[at - 1].name)
        invariant 0 <= at <= |sorted|
        invariant forall i :: at <= i < |sorted| ==> Less(packages[k].name, sorted[i].name)
      {
        at := at - 1;
      }
      Placed(sorted, packages[k], at);
      sorted := Inserted(sorted, packages[k], at);
    }
  }

  ghost predicate ByName(list: seq<Package>) {
    forall i, j :: 0 <= i < j < |list| ==> Less(list[i].name, list[j].name)
  }

  function Inserted(list: seq<Package>, p: Package, at: nat): seq<Package>
    requires at <= |list|
  {
    list[..at] + [p] + list[at..]
  }

  lemma EarlierAreLess(list: seq<Package>, p: Package, at: nat, i: nat)
    requires i < at <= |list| && ByName(list) && list[at - 1].name != p.name && !Less(p.name, list[at - 1].name)
    ensures Less(list[i].name, p.name)
  {
    LessTotal(list[at - 1].name, p.name);
    if i < at - 1 { LessTransitive(list[i].name, list[at - 1].name, p.name); }
    hide Less;
  }

  lemma InsertedByName(list: seq<Package>, p: Package, at: nat)
    requires at <= |list| && ByName(list)
    requires forall i :: 0 <= i < at ==> Less(list[i].name, p.name)
    requires forall i :: at <= i < |list| ==> Less(p.name, list[i].name)
    ensures ByName(Inserted(list, p, at))
  {
    hide Less;
    var s := Inserted(list, p, at);
    forall i, j | 0 <= i < j < |s| ensures Less(s[i].name, s[j].name) {
      assert s[i] == if i < at then list[i] else if i == at then p else list[i - 1];
      assert s[j] == if j < at then list[j] else if j == at then p else list[j - 1];
    }
  }

  lemma InsertedMembers(list: seq<Package>, p: Package, at: nat)
    requires at <= |list|
    ensures forall q :: q in Inserted(list, p, at) <==> q == p || q in list
  {
    assert list == list[..at] + list[at..];
  }

  lemma Placed(list: seq<Package>, p: Package, at: nat)
    requires at <= |list| && ByName(list) && forall q :: q in list ==> q.name != p.name
    requires forall i :: at <= i < |list| ==> Less(p.name, list[i].name)
    requires at > 0 ==> !Less(p.name, list[at - 1].name)
    ensures ByName(Inserted(list, p, at))
    ensures forall q :: q in Inserted(list, p, at) <==> q == p || q in list
  {
    hide Less, ByName, Inserted;
    forall i | 0 <= i < at ensures Less(list[i].name, p.name) { EarlierAreLess(list, p, at, i); }
    InsertedByName(list, p, at);
    InsertedMembers(list, p, at);
  }

  /** The work list: pops a token, skips what is seen, pushes dependencies.  It
      terminates on cyclic indexes because each package is expanded once. */
  method ResolvePackages(packages: Index, providers: Providers, wanted: seq<Token>)
    returns (r: Resolution)
    requires WellKeyed(packages)
    ensures IsResolution(packages, providers, wanted, r)
  {
    hide NormalizeDep;
    var resolved: seq<Package>, seen: set<Name>, stack := [], {}, wanted;
    while stack != []
      invariant seen <= packages.Keys
      invariant forall i :: 0 <= i < |resolved| ==>
                  resolved[i].name in seen && resolved[i] == packages[resolved[i].name]
      invariant forall i, j :: 0 <= i < j < |resolved| ==> resolved[i].name != resolved[j].name
      invariant seen == NamesOf(resolved)
      invariant forall names :: Covers(packages, providers, wanted, names) ==>
                  seen <= names && Includes(providers, stack, names)
      invariant Pending(providers, wanted, seen, stack)
      invariant forall n :: n in seen ==> Pending(providers, packages[n].depends, seen, stack)
      decreases packages.Keys - seen, |stack|
    {
      var token := stack[|stack| - 1];
      ghost var before, seen0 := stack, seen;
      stack := stack[..|stack| - 1];
      var name := NormalizeDep(providers, token);
      if name.None? || name.value in seen {
        SkipPending(packages, providers, wanted, seen, before);
        continue;
      }
      if name.value !in packages {
        assert Needed(packages, providers, wanted, name.value) by { Popped(packages, providers, wanted, before); }
        return Err(name.value);
      }
      var package := packages[name.value];
      seen := seen + {name.value};
      stack := stack + package.depends;
      ExpandPending(packages, providers, wanted, seen0, before, name.value);
      assert name.value in packages.Keys - seen0;
      resolved := resolved + [package];
    }
    var list := SortByName(resolved);
    Finished(packages, providers, wanted, resolved, list);
    r := Ok(list);
  }

  lemma Finished(packages: Index, providers: Providers, wanted: seq<Token>, resolved: seq<Package>, list: seq<Package>)
    requires NamesOf(resolved) <= packages.Keys
    requires forall i :: 0 <= i < |resolved| ==>
               resolved[i].name in packages && resolved[i] == packages[resolved[i].name]
    requires forall p :: p in list <==> p in resolved
    requires ByName(list)
    requires forall names :: Covers(packages, providers, wanted, names) ==> NamesOf(resolved) <= names
    requires Pending(providers, wanted, NamesOf(resolved), [])
    requires forall n :: n in NamesOf(resolved) ==> Pending(providers, packages[n].depends, NamesOf(resolved), [])
    ensures IsResolution(packages, providers, wanted, Ok(list))
  {
    hide NormalizeDep, Less;
    assert NamesOf(list) == NamesOf(resolved);
    assert forall i :: 0 <= i < |list| ==> list[i] in resolved;
  }

  /** Every token has been taken care of or is still on the stack. */
  ghost predicate Pending(providers: Providers, tokens: seq<Token>, seen: set<Name>, stack: seq<Token>) {
    forall i :: 0 <= i < |tokens| && NormalizeDep(providers, tokens[i]).Some? ==>
      NormalizeDep(providers, tokens[i]).value in seen || tokens[i] in stack
  }

  lemma SkipPending(packages: Index, providers: Providers, wanted: seq<Token>, seen: set<Name>, stack: seq<Token>)
    requires stack != [] && seen <= packages.Keys
    requires NormalizeDep(providers, stack[|stack| - 1]).Some? ==>
               NormalizeDep(providers, stack[|stack| - 1]).value in seen
    requires Pending(providers, wanted, seen, stack)
    requires forall n :: n in seen ==> Pending(providers, packages[n].depends, seen, stack)
    requires forall names :: Covers(packages, providers, wanted, names) ==>
               seen <= names && Includes(providers, stack, names)
    ensures var rest := stack[..|stack| - 1];
            && Pending(providers, wanted, seen, rest)
            && (forall n :: n in seen ==> Pending(providers, packages[n].depends, seen, rest))
            && forall names :: Covers(packages, providers, wanted, names) ==>
              seen <= names && Includes(providers, rest, names)
  {
    hide NormalizeDep;
  }

  lemma Popped(packages: Index, providers: Providers, wanted: seq<Token>, stack: seq<Token>)
    requires stack != [] && NormalizeDep(providers, stack[|stack| - 1]).Some?
    requires forall names :: Covers(packages, providers, wanted, names) ==> Includes(providers, stack, names)
    ensures Needed(packages, providers, wanted, NormalizeDep(providers, stack[|stack| - 1]).value)
  {}

  lemma ExpandPending(packages: Index, providers: Providers, wanted: seq<Token>, seen: set<Name>, stack: seq<Token>,
                      name: Name)
    requires stack != [] && seen <= packages.Keys && name in packages
    requires NormalizeDep(providers, stack[|stack| - 1]) == Some(name)
    requires Pending(providers, wanted, seen, stack)
    requires forall n :: n in seen ==> Pending(providers, packages[n].depends, seen, stack)
    requires forall names :: Covers(packages, providers, wanted, names) ==>
               seen <= names && Includes(providers, stack, names)
    ensures var rest, now := stack[..|stack| - 1] + packages[name].depends, seen + {name};
            && Pending(providers, wanted, now, rest)
            && (forall n :: n in now ==> Pending(providers, packages[n].depends, now, rest))
            && forall names :: Covers(packages, providers, wanted, names) ==>
              now <= names && Includes(providers, rest, names)
  {
    hide NormalizeDep;
    var rest, now := stack[..|stack| - 1] + packages[name].depends, seen + {name};
    assert forall t :: t in stack ==> t in rest || t == stack[|stack| - 1];
    forall names | Covers(packages, providers, wanted, names) ensures now <= names && Includes(providers, rest, names) {
      assert Includes(providers, stack, names);
      assert name in names;
    }
  }

  // ---- what the result depends on ----

  lemma {:induction false} SortedNamesUnique(a: seq<Package>, b: seq<Package>)
    requires ByName(a) && ByName(b)
    requires forall p :: p in a <==> p in b
    ensures a == b
  {
    hide Less;
    assert |a| > 0 ==> a[0] in b;
    assert |b| > 0 ==> b[0] in a;
    if a != [] {
      var i :| 0 <= i < |b| && b[i] == a[0];
      var j :| 0 <= j < |a| && a[j] == b[0];
      LessTotal(a[0].name, b[0].name);
      assert i == 0 && j == 0;
      forall p ensures p in a[1..] <==> p in b[1..] {
        if p in a[1..] { LessTotal(p.name, p.name); assert p in a && p in b; }
        if p in b[1..] { LessTotal(p.name, p.name); assert p in b && p in a; }
      }
      SortedNamesUnique(a[1..], b[1..]);
    }
  }

  /** The result does not depend on the order or repetition of the wanted tokens,
      nor on which implementation of this contract computed it. */
  lemma {:induction false} ResolutionUnique(packages: Index, providers: Providers, wanted: seq<Token>,
                                            wanted': seq<Token>, r: Resolution, r': Resolution)
    requires forall t :: t in wanted <==> t in wanted'
    requires IsResolution(packages, providers, wanted, r) && IsResolution(packages, providers, wanted', r')
    ensures r.Ok? <==> r'.Ok?
    ensures r.Ok? ==> r == r'
  {
    hide NormalizeDep, Less;
    forall names ensures Covers(packages, providers, wanted, names) <==> Covers(packages, providers, wanted', names) {
      SameTokens(providers, wanted, wanted', names);
    }
    if r.Ok? && r'.Ok? {
      assert NamesOf(r.value) == NamesOf(r'.value);
      forall p ensures p in r.value <==> p in r'.value {
        if p in r.value { SameListed(packages, r.value, r'.value, p); }
        if p in r'.value { SameListed(packages, r'.value, r.value, p); }
      }
      SortedNamesUnique(r.value, r'.value);
    }
  }

  lemma SameTokens(providers: Providers, a: seq<Token>, b: seq<Token>, names: set<Name>)
    requires forall t :: t in a <==> t in b
    ensures Includes(providers, a, names) <==> Includes(providers, b, names)
  {
    hide NormalizeDep;
    forall i | 0 <= i < |a| ensures exists j :: 0 <= j < |b| && b[j] == a[i] { assert a[i] in b; }
    forall i | 0 <= i < |b| ensures exists j :: 0 <= j < |a| && a[j] == b[i] { assert b[i] in a; }
  }

  lemma SameListed(packages: Index, a: seq<Package>, b: seq<Package>, p: Package)
    requires NamesOf(a) == NamesOf(b) && p in a
    requires forall i :: 0 <= i < |a| ==> a[i].name in packages && a[i] == packages[a[i].name]
    requires forall i :: 0 <= i < |b| ==> b[i].name in packages && b[i] == packages[b[i].name]
    ensures p in b
  {
    assert p.name in NamesOf(b);
    var q :| q in b && q.name == p.name;
  }

  // ---- the loader ----

  type Fields = map<string, seq<string>>

  function ValuesIn(fields: Fields, key: string): seq<string> {
    if key in fields then fields[key] else []
  }

  /** One line: key and value around its first colon. */
  function Noted(fields: Fields, line: string): Fields {
    if ':' !in line then fields
    else
      var key := LeftOf(line, ':');
      fields[key := ValuesIn(fields, key) + [line[|key| + 1..]]]
  }

  function FieldsOf(lines: seq<string>): Fields {
    if lines == [] then map[] else Noted(FieldsOf(lines[..|lines| - 1]), lines[|lines| - 1])
  }

  /** A line of an index block: a key, a colon, and a value up to the end of the line. */
  ghost predicate Carries(line: string, key: string, value: string) {
    line == key + ":" + value && ':' !in key
  }

  lemma {:induction false} KeyIsLeft(line: string, key: string, value: string)
    requires Carries(line, key, value)
    ensures key == LeftOf(line, ':') && ':' in line && value == line[|key| + 1..]
  {
    assert line[|key|] == ':';
    if key != [] {
      assert key[1..] + ":" + value == line[1..] && line[0] == key[0];
      KeyIsLeft(line[1..], key[1..], value);
    }
  }

  lemma LeftIsKey(line: string)
    requires ':' in line
    ensures var key := LeftOf(line, ':'); Carries(line, key, line[|key| + 1..])
  {
    hide LeftOf;
    SplitAt(line, |LeftOf(line, ':')|);
  }

  lemma SplitAt(s: string, k: nat)
    requires k < |s|
    ensures s == s[..k] + [s[k]] + s[k + 1..]
  {}

  /** The values a key has in some lines are those of the lines at these positions, in
      order, and no other line carries the key. */
  ghost predicate ValuesAt(lines: seq<string>, key: string, values: seq<string>, at: seq<nat>) {
    && |at| == |values|
    && (forall i, j :: 0 <= i < j < |at| ==> at[i] < at[j])
    && (forall j :: 0 <= j < |at| ==> at[j] < |lines| && Carries(lines[at[j]], key, values[j]))
    && (forall i, v :: 0 <= i < |lines| && Carries(lines[i], key, v) ==> i in at)
  }

  /** A key is there exactly when a line carries it; its values are those lines' values. */
  ghost predicate IsFields(lines: seq<string>, fields: Fields) {
    && (forall key :: key in fields <==> exists i, v :: 0 <= i < |lines| && Carries(lines[i], key, v))
    && (forall key :: key in fields ==> exists at :: ValuesAt(lines, key, fields[key], at))
  }

  lemma ValuesStay(lines: seq<string>, line: string, key: string, values: seq<string>, at: seq<nat>)
    requires ValuesAt(lines, key, values, at) && (':' in line ==> LeftOf(line, ':') != key)
    ensures ValuesAt(lines + [line], key, values, at)
  {
    hide LeftOf, Carries;
    forall i, v | 0 <= i < |lines + [line]| && Carries((lines + [line])[i], key, v) ensures i in at {
      if i == |lines| { KeyIsLeft(line, key, v); } else { assert Carries(lines[i], key, v); }
    }
  }

  lemma ValuesGrow(lines: seq<string>, line: string, key: string, values: seq<string>, at: seq<nat>, value: string)
    requires ValuesAt(lines, key, values, at) && Carries(line, key, value)
    ensures ValuesAt(lines + [line], key, values + [value], at + [|lines|])
  {
    hide Carries;
    var all, at' := lines + [line], at + [|lines|];
    assert at'[|at|] == |lines|;
    forall i, v | 0 <= i < |all| && Carries(all[i], key, v) ensures i in at' {
      if i < |lines| { assert Carries(lines[i], key, v); }
    }
  }

  lemma NoValues(lines: seq<string>, key: string)
    requires !exists i, v :: 0 <= i < |lines| && Carries(lines[i], key, v)
    ensures ValuesAt(lines, key, [], [])
  {}

  lemma NoFields()
    ensures IsFields([], map[])
  {}

  lemma {:induction false} FieldsMeaning(lines: seq<string>)
    ensures IsFields(lines, FieldsOf(lines))
  {
    hide IsFields, Noted;
    if lines == [] {
      NoFields();
    } else {
      var n := |lines| - 1;
      FieldsMeaning(lines[..n]);
      FieldsStep(lines[..n], lines[n], FieldsOf(lines[..n]));
      assert lines == lines[..n] + [lines[n]];
    }
  }

  lemma FieldsStep(lines: seq<string>, line: string, fields: Fields)
    requires IsFields(lines, fields)
    ensures IsFields(lines + [line], Noted(fields, line))
  {
    hide LeftOf, Carries, ValuesAt, Noted;
    var all, fields' := lines + [line], Noted(fields, line);
    forall key ensures key in fields' <==> exists i, v :: 0 <= i < |all| && Carries(all[i], key, v) {
      KeysStep(lines, line, fields, key);
    }
    forall key | key in fields' ensures exists at :: ValuesAt(all, key, fields'[key], at) {
      if key !in fields { NoValues(lines, key); }
      var at :| ValuesAt(lines, key, ValuesIn(fields, key), at);
      ValuesStep(lines, line, fields, key, at);
    }
  }

  lemma ValuesStep(lines: seq<string>, line: string, fields: Fields, key: string, at: seq<nat>)
    requires ValuesAt(lines, key, ValuesIn(fields, key), at) && key in Noted(fields, line)
    ensures exists at' :: ValuesAt(lines + [line], key, Noted(fields, line)[key], at')
  {
    hide LeftOf, Carries, ValuesAt;
    if ':' in line && key == LeftOf(line, ':') {
      LeftIsKey(line);
      ValuesGrow(lines, line, key, ValuesIn(fields, key), at, line[|key| + 1..]);
    } else {
      ValuesStay(lines, line, key, ValuesIn(fields, key), at);
    }
  }

  lemma KeysStep(lines: seq<string>, line: string, fields: Fields, key: string)
    requires key in fields <==> exists i, v :: 0 <= i < |lines| && Carries(lines[i], key, v)
    ensures key in Noted(fields, line) <==>
            exists i, v :: 0 <= i < |lines + [line]| && Carries((lines + [line])[i], key, v)
  {
    var all := lines + [line];
    if ':' in line { LeftIsKey(line); }
    hide LeftOf, Carries;
    assert all[|lines|] == line;
    if i, v :| 0 <= i < |lines| && Carries(lines[i], key, v) { assert Carries(all[i], key, v); }
    if i, v :| 0 <= i < |all| && Carries(all[i], key, v) {
      if i == |lines| { KeyIsLeft(line, key, v); } else { assert Carries(lines[i], key, v); }
    }
  }

  /** The fields of a block, line by line. */
  method PackageFields(lines: seq<string>) returns (fields: Fields)
    ensures fields == FieldsOf(lines) && IsFields(lines, fields)
  {
    hide IsFields, LeftOf;
    fields := map[];
    for k := 0 to |lines|
      invariant fields == FieldsOf(lines[..k])
    {
      assert lines[..k + 1][..k] == lines[..k];
      if ':' in lines[k] {
        var key := LeftOf(lines[k], ':');
        fields := fields[key := ValuesIn(fields, key) + [lines[k][|key| + 1..]]];
      }
    }
    assert lines[..|lines|] == lines;
    FieldsMeaning(lines);
  }

  function JoinFields(fields: Fields, key: string): seq<Token> {
    if key in fields then Words(fields[key]) else []
  }

  function Words(values: seq<string>): seq<Token> {
    if values == [] then [] else SplitWhitespace(values[0]) + Words(values[1..])
  }

  /** A block without name or version is skipped. */
  function ParseBlock(repo: string, lines: seq<string>): Option<Package> {
    var fields := FieldsOf(lines);
    if "P" !in fields || fields["P"] == [] || "V" !in fields || fields["V"] == [] then None
    else Some(Package(fields["P"][0], fields["V"][0], repo, JoinFields(fields, "D"), JoinFields(fields, "p")))
  }

  predicate Offers(p: Package, name: Name) {
    name == p.name || exists i :: 0 <= i < |p.provided| && StripConstraint(p.provided[i]) == name
  }

  /** Of packages with the same name, the last is kept. */
  ghost predicate LastKept(entries: seq<Package>, packages: Index) {
    && (forall n :: n in packages <==> exists i :: 0 <= i < |entries| && entries[i].name == n)
    && (forall n :: n in packages ==>
          exists i :: 0 <= i < |entries| && packages[n] == entries[i] && entries[i].name == n
                      && forall j :: i < j < |entries| ==> entries[j].name != n)
  }

  /** Of packages offering the same name, the first wins. */
  ghost predicate FirstWins(entries: seq<Package>, providers: Providers) {
    && (forall n :: n in providers <==> exists i :: 0 <= i < |entries| && Offers(entries[i], n))
    && (forall n :: n in providers ==>
          exists i :: 0 <= i < |entries| && Offers(entries[i], n) && providers[n] == entries[i].name
                      && forall j :: 0 <= j < i ==> !Offers(entries[j], n))
  }

  ghost predicate Loaded(entries: seq<Package>, packages: Index, providers: Providers) {
    LastKept(entries, packages) && FirstWins(entries, providers)
  }

  /** One package into the maps: its name and what it provides are offered only
      where nobody offers them yet; the package itself replaces an older one. */
  method LoadPackage(package: Package, packages: Index, providers: Providers, ghost entries: seq<Package>)
    returns (packages': Index, providers': Providers)
    requires Loaded(entries, packages, providers)
    ensures Loaded(entries + [package], packages', providers')
  {
    hide StripConstraint;
    providers' := if package.name in providers then providers else providers[package.name := package.name];
    for k := 0 to |package.provided|
      invariant forall n :: n in providers' <==>
                  || n in providers || n == package.name
                  || exists i :: 0 <= i < k && StripConstraint(package.provided[i]) == n
      invariant forall n :: n in providers' ==> providers'[n] == if n in providers then providers[n] else package.name
    {
      var name := CutConstraint(package.provided[k]);
      if name !in providers' {
        providers' := providers'[name := package.name];
      }
    }
    packages' := packages[package.name := package];
    KeepLast(entries, package, packages);
    KeepFirst(entries, package, providers, providers');
  }

  lemma KeepLast(entries: seq<Package>, package: Package, packages: Index)
    requires LastKept(entries, packages)
    ensures LastKept(entries + [package], packages[package.name := package])
  {
    var all, packages' := entries + [package], packages[package.name := package];
    assert all[|entries|] == package;
    forall n | n in packages'
      ensures exists i :: 0 <= i < |all| && packages'[n] == all[i] && all[i].name == n
                          && forall j :: i < j < |all| ==> all[j].name != n
    {
      if n != package.name {
        var i :| 0 <= i < |entries| && packages[n] == entries[i] && entries[i].name == n
                 && forall j :: i < j < |entries| ==> entries[j].name != n;
        assert all[i] == packages'[n];
      }
    }
    forall i | 0 <= i < |all| ensures all[i].name in packages' {
      if i < |entries| { assert all[i] == entries[i]; }
    }
  }

  lemma KeepFirst(entries: seq<Package>, package: Package, providers: Providers, providers': Providers)
    requires FirstWins(entries, providers)
    requires forall n :: n in providers' <==> n in providers || Offers(package, n)
    requires forall n :: n in providers' ==> providers'[n] == if n in providers then providers[n] else package.name
    ensures FirstWins(entries + [package], providers')
  {
    hide Offers;
    var all := entries + [package];
    assert all[|entries|] == package;
    forall n | n in providers'
      ensures exists i :: 0 <= i < |all| && Offers(all[i], n) && providers'[n] == all[i].name
                          && forall j :: 0 <= j < i ==> !Offers(all[j], n)
    {
      if n in providers {
        var i :| 0 <= i < |entries| && Offers(entries[i], n) && providers[n] == entries[i].name
                 && forall j :: 0 <= j < i ==> !Offers(entries[j], n);
        assert Offers(all[i], n);
      } else {
        assert Offers(all[|entries|], n);
      }
    }
    forall n, i | 0 <= i < |all| && Offers(all[i], n) ensures n in providers' {
      if i < |entries| { assert all[i] == entries[i]; }
    }
  }

  function Entries(blocks: seq<(string, seq<string>)>): seq<Package> {
    if blocks == [] then []
    else
      var b := blocks[|blocks| - 1];
      var p := ParseBlock(b.0, b.1);
      Entries(blocks[..|blocks| - 1]) + if p.Some? then [p.value] else []
  }

  /** Loads the blocks of all repositories, in order. */
  method LoadIndexes(blocks: seq<(string, seq<string>)>) returns (packages: Index, providers: Providers)
    ensures Loaded(Entries(blocks), packages, providers)
  {
    packages, providers := map[], map[];
    for k := 0 to |blocks|
      invariant Loaded(Entries(blocks[..k]), packages, providers)
    {
      assert blocks[..k + 1][..k] == blocks[..k];
      var fields := PackageFields(blocks[k].1);
      if "P" in fields && fields["P"] != [] && "V" in fields && fields["V"] != [] {
        var package := Package(fields["P"][0], fields["V"][0], blocks[k].0, JoinFields(fields, "D"),
          JoinFields(fields, "p"));
        packages, providers := LoadPackage(package, packages, providers, Entries(blocks[..k]));
      } else {
        assert Entries(blocks[..k]) + [] == Entries(blocks[..k]);
      }
    }
    assert blocks[..|blocks|] == blocks;
  }

  /** On loaded maps every provider exists and every package is offered. */
  lemma {:induction false} LoadedIsConsistent(entries: seq<Package>, packages: Index, providers: Providers)
    requires Loaded(entries, packages, providers)
    ensures WellKeyed(packages)
    ensures forall n :: n in packages ==> n in providers
    ensures forall n :: n in providers ==> providers[n] in packages
  {
    hide StripConstraint;
    forall n | n in packages ensures n in providers {
      var i :| 0 <= i < |entries| && entries[i].name == n;
      assert Offers(entries[i], n);
    }
  }

  /** A token some resolution must follow. */
  ghost predicate Reached(packages: Index, providers: Providers, wanted: seq<Token>, t: Token) {
    || t in wanted
    || exists n :: n in packages && Needed(packages, providers, wanted, n) && t in packages[n].depends
  }

  /** Neither a library or command name, nor offered by anyone. */
  predicate Unresolvable(providers: Providers, t: Token) {
    var dep := StripConstraint(t);
    dep != "" && !IsVirtual(dep) && dep !in providers
  }

  lemma ReachedIsNeeded(packages: Index, providers: Providers, wanted: seq<Token>, t: Token)
    requires Reached(packages, providers, wanted, t) && NormalizeDep(providers, t).Some?
    ensures Needed(packages, providers, wanted, NormalizeDep(providers, t).value)
  {
    hide NormalizeDep;
    forall names: set<Name> | Covers(packages, providers, wanted, names)
      ensures NormalizeDep(providers, t).value in names {
      if t in wanted {
        var i :| 0 <= i < |wanted| && wanted[i] == t;
      } else {
        var n :| n in packages && Needed(packages, providers, wanted, n) && t in packages[n].depends;
        var i :| 0 <= i < |packages[n].depends| && packages[n].depends[i] == t;
        assert Includes(providers, packages[n].depends, names);
      }
    }
  }

  /** On a loaded index, resolution fails exactly when it reaches a token that
      asks for a plain name nobody offers. */
  lemma {:induction false} FailsExactlyWhenUnresolvable(entries: seq<Package>, packages: Index, providers: Providers,
                                                        wanted: seq<Token>, r: Resolution)
    requires Loaded(entries, packages, providers) && IsResolution(packages, providers, wanted, r)
    ensures r.Err? <==> exists t :: Reached(packages, providers, wanted, t) && Unresolvable(providers, t)
  {
    hide *;
    LoadedIsConsistent(entries, packages, providers);
    if t :| Reached(packages, providers, wanted, t) && Unresolvable(providers, t) {
      UnresolvableFails(packages, providers, wanted, r, t);
    } else {
      ResolvableSucceeds(packages, providers, wanted, r);
    }
  }

  lemma UnresolvableFails(packages: Index, providers: Providers, wanted: seq<Token>, r: Resolution,
                          t: Token)
    requires IsResolution(packages, providers, wanted, r) && forall n :: n in packages ==> n in providers
    requires Reached(packages, providers, wanted, t) && Unresolvable(providers, t)
    ensures r.Err?
  {
    hide Less, StripConstraint, IsVirtual;
    assert NormalizeDep(providers, t) == Some(StripConstraint(t)) && StripConstraint(t) !in packages;
    ReachedIsNeeded(packages, providers, wanted, t);
    hide NormalizeDep, Reached, Unresolvable;
  }

  lemma ResolvableSucceeds(packages: Index, providers: Providers, wanted: seq<Token>, r: Resolution)
    requires IsResolution(packages, providers, wanted, r) && forall n :: n in providers ==> providers[n] in packages
    requires forall t :: Reached(packages, providers, wanted, t) ==> !Unresolvable(providers, t)
    ensures r.Ok?
  {
    var names := set n | n in packages && Needed(packages, providers, wanted, n);
    NeededCovers(packages, providers, wanted, names);
    hide Unresolvable, Reached, NormalizeDep, Less, Covers;
  }

  lemma ResolvableIsNamed(packages: Index, providers: Providers, wanted: seq<Token>, names: set<Name>, t: Token)
    requires names == set n | n in packages && Needed(packages, providers, wanted, n)
    requires Reached(packages, providers, wanted, t) && !Unresolvable(providers, t) && NormalizeDep(providers, t).Some?
    requires forall n :: n in providers ==> providers[n] in packages
    ensures NormalizeDep(providers, t).value in names
  {
    ReachedIsNeeded(packages, providers, wanted, t);
    hide StripConstraint, IsVirtual, Needed, Reached;
  }

  /** The needed packages that exist form a closed set. */
  lemma {:induction false} NeededCovers(packages: Index, providers: Providers, wanted: seq<Token>, names: set<Name>)
    requires names == set n | n in packages && Needed(packages, providers, wanted, n)
    requires forall t :: Reached(packages, providers, wanted, t) ==> !Unresolvable(providers, t)
    requires forall n :: n in providers ==> providers[n] in packages
    ensures Covers(packages, providers, wanted, names)
  {
    hide NormalizeDep, Unresolvable, Needed;
    forall n, i | n in names && 0 <= i < |packages[n].depends| && NormalizeDep(providers, packages[n].depends[i]).Some?
      ensures NormalizeDep(providers, packages[n].depends[i]).value in names
    {
      assert Reached(packages, providers, wanted, packages[n].depends[i]);
      ResolvableIsNamed(packages, providers, wanted, names, packages[n].depends[i]);
    }
    forall i | 0 <= i < |wanted| && NormalizeDep(providers, wanted[i]).Some?
      ensures NormalizeDep(providers, wanted[i]).value in names
    {
      assert Reached(packages, providers, wanted, wanted[i]);
      ResolvableIsNamed(packages, providers, wanted, names, wanted[i]);
    }
  }
}
