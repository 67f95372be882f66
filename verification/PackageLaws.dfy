/** What a resolution installs, told by chains of dependencies, and what an index block
    says, told by its lines. */
module PackageLaws {
  import opened Wrappers
  import opened Text
  import opened Packages

  // ---- chains of dependencies ----

  /** A token asks for the provider of the name it strips to; a name nobody provides is
      asked for itself, unless it is that of a shared library or a command. */
  predicate Asks(providers: Providers, t: Token, n: Name) {
    var dep := StripConstraint(t);
    && dep != ""
    && if dep in providers then providers[dep] == n else !("so:" <= dep) && !("cmd:" <= dep) && dep == n
  }

  lemma {:induction false} NormalizeAsks(providers: Providers, t: Token)
    ensures forall n :: NormalizeDep(providers, t) == Some(n) <==> Asks(providers, t, n)
  {
    hide StripConstraint;
  }

  ghost predicate AsksOneOf(providers: Providers, tokens: seq<Token>, n: Name) {
    exists t :: t in tokens && Asks(providers, t, n)
  }

  /** A chain from a wanted token through the dependencies of packages. */
  ghost predicate Leads(packages: Index, providers: Providers, wanted: seq<Token>, path: seq<Name>) {
    && path != [] && AsksOneOf(providers, wanted, path[0])
    && forall i :: 0 <= i < |path| - 1 ==>
         path[i] in packages && AsksOneOf(providers, packages[path[i]].depends, path[i + 1])
  }

  ghost predicate LeadsTo(packages: Index, providers: Providers, wanted: seq<Token>, n: Name) {
    exists path :: Leads(packages, providers, wanted, path) && path[|path| - 1] == n
  }

  lemma IncludesAsked(providers: Providers, tokens: seq<Token>, names: set<Name>)
    ensures Includes(providers, tokens, names) <==> forall n :: AsksOneOf(providers, tokens, n) ==> n in names
  {
    hide NormalizeDep, Asks;
    if Includes(providers, tokens, names) {
      forall n | AsksOneOf(providers, tokens, n) ensures n in names {
        var t :| t in tokens && Asks(providers, t, n);
        NormalizeAsks(providers, t);
        var i :| 0 <= i < |tokens| && tokens[i] == t;
      }
    }
    if forall n :: AsksOneOf(providers, tokens, n) ==> n in names {
      forall i | 0 <= i < |tokens| && NormalizeDep(providers, tokens[i]).Some?
        ensures NormalizeDep(providers, tokens[i]).value in names
      {
        NormalizeAsks(providers, tokens[i]);
        assert AsksOneOf(providers, tokens, NormalizeDep(providers, tokens[i]).value);
      }
    }
  }

  /** A closed set contains every chain. */
  lemma {:induction false} PathCovered(packages: Index, providers: Providers, wanted: seq<Token>, path: seq<Name>,
                                       names: set<Name>, k: nat)
    requires Leads(packages, providers, wanted, path) && Covers(packages, providers, wanted, names) && k < |path|
    ensures path[k] in names
  {
    hide Includes, AsksOneOf;
    if k == 0 {
      IncludesAsked(providers, wanted, names);
    } else {
      PathCovered(packages, providers, wanted, path, names, k - 1);
      IncludesAsked(providers, packages[path[k - 1]].depends, names);
    }
  }

  /** All names any token could ask for. */
  ghost function Askable(packages: Index, providers: Providers, wanted: seq<Token>): (names: set<Name>)
    ensures forall t, n :: t in wanted && Asks(providers, t, n) ==> n in names
    ensures forall m, t, n :: m in packages && t in packages[m].depends && Asks(providers, t, n) ==> n in names
  {
    hide NormalizeDep, Asks;
    var direct := set t | t in wanted && NormalizeDep(providers, t).Some? :: NormalizeDep(providers, t).value;
    var indirect := set m, t | m in packages && t in packages[m].depends && NormalizeDep(providers, t).Some?
                      :: NormalizeDep(providers, t).value;
    assert forall t, n :: Asks(providers, t, n) ==> NormalizeDep(providers, t) == Some(n) by {
      forall t, n | Asks(providers, t, n) ensures NormalizeDep(providers, t) == Some(n) { NormalizeAsks(providers, t); }
    }
    direct + indirect
  }

  lemma LeadsOn(packages: Index, providers: Providers, wanted: seq<Token>, n: Name, next: Name)
    requires LeadsTo(packages, providers, wanted, n) && n in packages
    requires AsksOneOf(providers, packages[n].depends, next)
    ensures LeadsTo(packages, providers, wanted, next)
  {
    hide AsksOneOf;
    var path :| Leads(packages, providers, wanted, path) && path[|path| - 1] == n;
    var longer := path + [next];
    assert Leads(packages, providers, wanted, longer) && longer[|longer| - 1] == next;
  }

  /** The names chains lead to form a closed set. */
  lemma {:induction false} LedToCovers(packages: Index, providers: Providers, wanted: seq<Token>, names: set<Name>)
    requires names == set n | n in Askable(packages, providers, wanted) && LeadsTo(packages, providers, wanted, n)
    ensures Covers(packages, providers, wanted, names)
  {
    hide Includes, LeadsTo, Asks;
    IncludesAsked(providers, wanted, names);
    forall n | AsksOneOf(providers, wanted, n) ensures n in names {
      assert LeadsTo(packages, providers, wanted, n) by { StartsAt(packages, providers, wanted, n); }
    }
    forall m | m in names && m in packages ensures Includes(providers, packages[m].depends, names) {
      IncludesAsked(providers, packages[m].depends, names);
      forall n | AsksOneOf(providers, packages[m].depends, n) ensures n in names {
        LeadsOn(packages, providers, wanted, m, n);
      }
    }
  }

  lemma StartsAt(packages: Index, providers: Providers, wanted: seq<Token>, n: Name)
    requires AsksOneOf(providers, wanted, n)
    ensures LeadsTo(packages, providers, wanted, n)
  {
    hide AsksOneOf;
    var path := [n];
    assert Leads(packages, providers, wanted, path) && path[|path| - 1] == n;
  }

  lemma LedToCovered(packages: Index, providers: Providers, wanted: seq<Token>, n: Name, names: set<Name>)
    requires LeadsTo(packages, providers, wanted, n) && Covers(packages, providers, wanted, names)
    ensures n in names
  {
    hide Covers, AsksOneOf;
    var path :| Leads(packages, providers, wanted, path) && path[|path| - 1] == n;
    PathCovered(packages, providers, wanted, path, names, |path| - 1);
  }

  /** A name is needed if and only if a chain of dependencies leads to it. */
  lemma {:induction false} NeededIffLedTo(packages: Index, providers: Providers, wanted: seq<Token>, n: Name)
    ensures Needed(packages, providers, wanted, n) <==> LeadsTo(packages, providers, wanted, n)
  {
    hide Covers, LeadsTo;
    if LeadsTo(packages, providers, wanted, n) {
      forall names: set<Name> | Covers(packages, providers, wanted, names) ensures n in names {
        LedToCovered(packages, providers, wanted, n, names);
      }
    }
    if Needed(packages, providers, wanted, n) {
      var names := set n | n in Askable(packages, providers, wanted) && LeadsTo(packages, providers, wanted, n);
      LedToCovers(packages, providers, wanted, names);
    }
  }

  /** The packages installed are exactly those a chain of dependencies leads to from a
      wanted token; resolution fails on the name at the end of a chain that is no package. */
  lemma {:induction false} ResolutionByChains(packages: Index, providers: Providers, wanted: seq<Token>, r: Resolution)
    requires IsResolution(packages, providers, wanted, r)
    ensures match r
            case Ok(list) =>
              && (forall n :: n in NamesOf(list) <==> LeadsTo(packages, providers, wanted, n))
              && forall i :: 0 <= i < |list| ==> list[i].name in packages && list[i] == packages[list[i].name]
            case Err(missing) => missing !in packages && LeadsTo(packages, providers, wanted, missing)
  {
    hide Covers, LeadsTo, Less;
    forall n ensures Needed(packages, providers, wanted, n) <==> LeadsTo(packages, providers, wanted, n) {
      NeededIffLedTo(packages, providers, wanted, n);
    }
  }

  /** Every dependency of what is installed is installed: whatever provides it. */
  lemma {:induction false} DependenciesInstalled(packages: Index, providers: Providers, wanted: seq<Token>,
                                                 list: seq<Package>, t: Token)
    requires IsResolution(packages, providers, wanted, Ok(list))
    requires t in wanted || exists p :: p in list && t in p.depends
    ensures var dep := StripConstraint(t);
            && (dep != "" && dep in providers ==> providers[dep] in NamesOf(list))
            && (dep != "" && dep !in providers && !("so:" <= dep) && !("cmd:" <= dep) ==> dep in NamesOf(list))
  {
    hide StripConstraint, Less, Includes;
    var names := NamesOf(list);
    IncludesAsked(providers, wanted, names);
    if t in wanted {
      assert forall n :: Asks(providers, t, n) ==> AsksOneOf(providers, wanted, n);
    } else {
      var p :| p in list && t in p.depends;
      var i :| 0 <= i < |list| && list[i] == p;
      assert p.name in names && packages[p.name] == p;
      IncludesAsked(providers, p.depends, names);
      assert forall n :: Asks(providers, t, n) ==> AsksOneOf(providers, p.depends, n);
    }
    var dep := StripConstraint(t);
    assert dep != "" && dep in providers ==> Asks(providers, t, providers[dep]);
    assert dep != "" && dep !in providers && !("so:" <= dep) && !("cmd:" <= dep) ==> Asks(providers, t, dep);
  }

  // ---- index blocks ----

  ghost predicate SomeLine(lines: seq<string>, key: string) {
    exists i, v :: 0 <= i < |lines| && Carries(lines[i], key, v)
  }

  /** The value of the first line that carries a key. */
  ghost predicate FirstLine(lines: seq<string>, key: string, value: string) {
    exists i :: 0 <= i < |lines| && Carries(lines[i], key, value)
                && forall j, v :: 0 <= j < i ==> !Carries(lines[j], key, v)
  }

  /** The words of all the lines that carry a key, line by line. */
  ghost predicate WordsOfLines(lines: seq<string>, key: string, words: seq<Token>) {
    exists values, at :: ValuesAt(lines, key, values, at) && words == Words(values)
  }

  lemma FirstOfValues(lines: seq<string>, key: string, values: seq<string>, at: seq<nat>)
    requires ValuesAt(lines, key, values, at) && values != []
    ensures FirstLine(lines, key, values[0])
  {
    hide Carries;
    assert forall j: nat :: j in at ==> at[0] <= j;
    assert Carries(lines[at[0]], key, values[0]);
  }

  lemma {:induction false} KeyValues(lines: seq<string>, key: string)
    ensures var fields := FieldsOf(lines);
            && (key in fields && fields[key] != [] <==> SomeLine(lines, key))
            && (SomeLine(lines, key) ==> FirstLine(lines, key, fields[key][0]))
            && WordsOfLines(lines, key, JoinFields(fields, key))
  {
    hide FieldsOf, Carries, Words;
    FieldsMeaning(lines);
    var fields := FieldsOf(lines);
    if key in fields {
      var at :| ValuesAt(lines, key, fields[key], at);
      var i, v :| 0 <= i < |lines| && Carries(lines[i], key, v);
      assert i in at;
      FirstOfValues(lines, key, fields[key], at);
    } else {
      NoValues(lines, key);
      NoWords();
    }
  }

  lemma NoWords()
    ensures Words([]) == []
  {}

  /** A block gives a package exactly when a line names it and a line gives its version;
      the first such lines count.  Its dependencies and what it provides are the words of
      the D and p lines. */
  lemma {:induction false} BlockSays(repo: string, lines: seq<string>)
    ensures ParseBlock(repo, lines).Some? <==> SomeLine(lines, "P") && SomeLine(lines, "V")
    ensures ParseBlock(repo, lines).Some? ==>
              var p := ParseBlock(repo, lines).value;
              && FirstLine(lines, "P", p.name) && FirstLine(lines, "V", p.version) && p.repo == repo
              && WordsOfLines(lines, "D", p.depends) && WordsOfLines(lines, "p", p.provided)
  {
    hide FieldsOf, JoinFields, FirstLine, WordsOfLines, SomeLine;
    KeyValues(lines, "P");
    KeyValues(lines, "V");
    KeyValues(lines, "D");
    KeyValues(lines, "p");
  }

  /** The words of several lines are those of each line, in order. */
  lemma {:induction false} WordsInOrder(a: seq<string>, b: seq<string>)
    ensures Words(a + b) == Words(a) + Words(b)
    ensures |a| == 1 ==> Words(a) == SplitWhitespace(a[0])
  {
    hide SplitWhitespace;
    if a == [] {
      assert a + b == b;
    } else {
      WordsInOrder(a[1..], b);
      assert (a + b)[0] == a[0] && (a + b)[1..] == a[1..] + b;
    }
  }

  function Given(block: (string, seq<string>)): seq<Package> {
    var p := ParseBlock(block.0, block.1);
    if p.Some? then [p.value] else []
  }

  lemma EntriesNext(blocks: seq<(string, seq<string>)>, block: (string, seq<string>))
    ensures Entries(blocks + [block]) == Entries(blocks) + Given(block)
  {
    hide ParseBlock;
    assert (blocks + [block])[..|blocks|] == blocks;
  }

  /** The packages of an index are those its blocks give, block by block. */
  lemma {:induction false} EntriesInOrder(a: seq<(string, seq<string>)>, b: seq<(string, seq<string>)>)
    ensures Entries(a + b) == Entries(a) + Entries(b)
    ensures |b| == 1 ==> Entries(b) == Given(b[0])
  {
    hide Entries, Given;
    NoEntries();
    if b == [] {
      assert a + b == a && Entries(a) + [] == Entries(a);
    } else {
      var n := |b| - 1;
      EntriesInOrder(a, b[..n]);
      EntriesNext(a + b[..n], b[n]);
      EntriesNext(b[..n], b[n]);
      assert a + b == a + b[..n] + [b[n]] && b == b[..n] + [b[n]];
      assert n == 0 ==> b[..n] == [] && [] + Given(b[0]) == Given(b[0]);
    }
  }

  lemma NoEntries()
    ensures Entries([]) == []
  {}
}
