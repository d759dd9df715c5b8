/** Resolving a design token through its var() chain. */
module Tokens {
  import opened Text

  /** A declared value: a var() reference with the text of its fallback, if it gives one, or anything else. */
  datatype Value = Var(ref: string, fallback: Option<string>) | Terminal(text: string)

  datatype Theme = Dark | Light

  /** `parse` is the match of the var() pattern. */
  datatype Scopes = Scopes(root: map<string, string>, light: map<string, string>, parse: string -> Value)

  /** Light falls back to root, token by token. */
  function Lookup(n: string, theme: Theme, s: Scopes): Option<Value> {
    if theme.Light? && n in s.light then Some(s.parse(s.light[n]))
    else if n in s.root then Some(s.parse(s.root[n]))
    else None
  }

  function Declared(s: Scopes): set<string> { s.root.Keys + s.light.Keys }

  lemma SeenGrows(name: string, s: Scopes, seen: set<string>)
    requires name in Declared(s) && name !in seen
    ensures |Declared(s) - (seen + {name})| < |Declared(s) - seen|
  {
    assert Declared(s) - seen == Declared(s) - (seen + {name}) + {name};
  }

  /** None is null. An empty text counts as nothing found at the next hop up. */
  function Resolve(name: string, theme: Theme, s: Scopes, seen: set<string>): Option<string>
    decreases |Declared(s) - seen|
  {
    if name in seen then None
    else
      match Lookup(name, theme, s)
      case None => None
      case Some(Terminal(text)) => Some(text)
      case Some(Var(ref, fallback)) =>
        SeenGrows(name, s, seen);
        var resolved := Resolve(ref, theme, s, seen + {name});
        if resolved.Some? && resolved.value != "" then resolved
        else if fallback.Some? && fallback.value != "" then Some(Trim(fallback.value))
        else None
  }

  /** Callers take null and the empty text alike. */
  function Truthy(r: Option<string>): Option<string> { if r == Some("") then None else r }

  // ---------------------------------------------------------------- what a chain means

  predicate IsVar(v: Option<Value>) { v.Some? && v.value.Var? }

  /** The tokens of the chain from `name`, each once: every one but the last refers to the next, and after the
      last there is nothing new to follow. */
  ghost predicate IsChain(path: seq<string>, name: string, theme: Theme, s: Scopes, seen: set<string>) {
    && path != [] && path[0] == name
    && (forall i :: 0 <= i < |path| ==> path[i] !in seen)
    && (forall i, j :: 0 <= i < j < |path| ==> path[i] != path[j])
    && (forall i :: 0 <= i < |path| - 1 ==> RefersTo(path[i], path[i + 1], theme, s))
    && Ends(path, theme, s, seen)
  }

  predicate RefersTo(n: string, next: string, theme: Theme, s: Scopes) {
    IsVar(Lookup(n, theme, s)) && Lookup(n, theme, s).value.ref == next
  }

  predicate Ends(path: seq<string>, theme: Theme, s: Scopes, seen: set<string>)
    requires path != []
  {
    var last := Lookup(path[|path| - 1], theme, s);
    IsVar(last) ==> last.value.ref in path || last.value.ref in seen
  }

  /** The fallback of one hop, when it says anything. */
  function Fallback(n: string, theme: Theme, s: Scopes): Option<string> {
    var v := Lookup(n, theme, s);
    if IsVar(v) && v.value.fallback.Some? && Trim(v.value.fallback.value) != "" then Some(Trim(v.value.fallback.value)) else None
  }

  /** The text a chain ends in, if it ends in one. */
  function Ending(path: seq<string>, theme: Theme, s: Scopes): Option<string>
    requires path != []
  {
    var last := Lookup(path[|path| - 1], theme, s);
    if last.Some? && last.value.Terminal? && last.value.text != "" then Some(last.value.text) else None
  }

  /** The text at the end of the chain; failing that, the fallback nearest to the end. */
  ghost predicate Means(path: seq<string>, theme: Theme, s: Scopes, r: Option<string>)
    requires path != []
  {
    if Ending(path, theme, s).Some? then r == Ending(path, theme, s)
    else if r.Some? then
      exists m :: 0 <= m < |path| && NearestFallback(path, theme, s, m) && r == Fallback(path[m], theme, s)
    else forall i :: 0 <= i < |path| ==> Fallback(path[i], theme, s).None?
  }

  ghost predicate NearestFallback(path: seq<string>, theme: Theme, s: Scopes, m: int)
    requires 0 <= m < |path|
  {
    Fallback(path[m], theme, s).Some? && forall i :: m < i < |path| ==> Fallback(path[i], theme, s).None?
  }

  lemma TrimOfEmpty()
    ensures Trim("") == ""
  {
  }

  /** Resolution gives the meaning of the chain. */
  lemma {:induction false} ResolveMeans(path: seq<string>, name: string, theme: Theme, s: Scopes, seen: set<string>)
    requires IsChain(path, name, theme, s, seen)
    ensures Means(path, theme, s, Truthy(Resolve(name, theme, s, seen)))
    decreases |path|
  {
    hide Trim, Lookup;
    TrimOfEmpty();
    var v := Lookup(name, theme, s);
    if |path| == 1 {
      if IsVar(v) {
        assert v.value.ref in seen + {name};
        assert Resolve(v.value.ref, theme, s, seen + {name}).None?;
      }
      OneToken(path, theme, s, Truthy(Resolve(name, theme, s, seen)));
    } else {
      assert RefersTo(path[0], path[1], theme, s);
      TailIsChain(path, name, theme, s, seen);
      ResolveMeans(path[1..], path[1], theme, s, seen + {name});
      OneMoreHop(path, theme, s, Truthy(Resolve(path[1], theme, s, seen + {name})));
    }
  }

  lemma TailIsChain(path: seq<string>, name: string, theme: Theme, s: Scopes, seen: set<string>)
    requires IsChain(path, name, theme, s, seen) && |path| > 1
    ensures IsChain(path[1..], path[1], theme, s, seen + {name})
  {
    hide Lookup;
    forall i | 0 <= i < |path[1..]| - 1 ensures RefersTo(path[1..][i], path[1..][i + 1], theme, s) {
      assert RefersTo(path[i + 1], path[i + 2], theme, s);
    }
  }

  lemma OneToken(path: seq<string>, theme: Theme, s: Scopes, r: Option<string>)
    requires |path| == 1
    requires r == if Ending(path, theme, s).Some? then Ending(path, theme, s) else Fallback(path[0], theme, s)
    ensures Means(path, theme, s, r)
  {
    hide Trim, Lookup;
    if r.Some? && Ending(path, theme, s).None? {
      assert NearestFallback(path, theme, s, 0);
    }
  }

  /** The first token's fallback is the last resort. */
  lemma OneMoreHop(path: seq<string>, theme: Theme, s: Scopes, r: Option<string>)
    requires |path| > 1 && Means(path[1..], theme, s, r)
    ensures Means(path, theme, s, if r.Some? then r else Fallback(path[0], theme, s))
  {
    hide Trim, Lookup, Fallback;
    var rest := path[1..];
    assert rest[|rest| - 1] == path[|path| - 1];
    assert forall i :: 0 <= i < |rest| ==> rest[i] == path[i + 1];
    if Ending(path, theme, s).None? {
      if r.Some? {
        var m :| 0 <= m < |rest| && NearestFallback(rest, theme, s, m) && r == Fallback(rest[m], theme, s);
        forall i | m + 1 < i < |path| ensures Fallback(path[i], theme, s).None? {
          assert rest[i - 1] == path[i];
        }
        assert NearestFallback(path, theme, s, m + 1);
      } else {
        forall i | 0 < i < |path| ensures Fallback(path[i], theme, s).None? {
          assert rest[i - 1] == path[i];
        }
        if Fallback(path[0], theme, s).Some? {
          assert NearestFallback(path, theme, s, 0);
        }
      }
    }
  }

  /** Every token has a chain, cyclic references included. */
  lemma {:induction false} ChainExists(name: string, theme: Theme, s: Scopes, seen: set<string>) returns (path: seq<string>)
    requires name !in seen
    ensures IsChain(path, name, theme, s, seen)
    decreases |Declared(s) - seen|
  {
    hide Lookup;
    var v := Lookup(name, theme, s);
    path := [name];
    if IsVar(v) && v.value.ref != name && v.value.ref !in seen {
      DeclaredIfFound(name, theme, s);
      SeenGrows(name, s, seen);
      var rest := ChainExists(v.value.ref, theme, s, seen + {name});
      ChainExtends(name, rest, theme, s, seen);
      path := [name] + rest;
    }
  }

  lemma ChainExtends(name: string, rest: seq<string>, theme: Theme, s: Scopes, seen: set<string>)
    requires name !in seen && rest != [] && RefersTo(name, rest[0], theme, s)
    requires IsChain(rest, rest[0], theme, s, seen + {name})
    ensures IsChain([name] + rest, name, theme, s, seen)
  {
    hide Lookup, RefersTo;
    var path := [name] + rest;
    assert forall i :: 0 < i < |path| ==> path[i] == rest[i - 1];
    forall i | 0 <= i < |path| - 1 ensures RefersTo(path[i], path[i + 1], theme, s) {
      if i > 0 {
        assert RefersTo(rest[i - 1], rest[i], theme, s);
      }
    }
    assert Ends(path, theme, s, seen) by {
      hide RefersTo;
      assert path[|path| - 1] == rest[|rest| - 1] && name in path;
      assert Ends(rest, theme, s, seen + {name});
    }
  }

  lemma DeclaredIfFound(name: string, theme: Theme, s: Scopes)
    ensures Lookup(name, theme, s).Some? ==> name in Declared(s)
  {
  }

  /** `resolve` of any token of any token map: there is a chain, and it gives what every chain of the token means. */
  lemma ResolveIsMeaning(name: string, theme: Theme, s: Scopes)
    ensures exists path :: IsChain(path, name, theme, s, {})
    ensures forall path :: IsChain(path, name, theme, s, {}) ==> Means(path, theme, s, Truthy(Resolve(name, theme, s, {})))
  {
    hide IsChain, Means, Resolve;
    var chain := ChainExists(name, theme, s, {});
    forall path | IsChain(path, name, theme, s, {}) ensures path != [] && Means(path, theme, s, Truthy(Resolve(name, theme, s, {}))) {
      ChainStarts(path, name, theme, s);
      ResolveMeans(path, name, theme, s, {});
    }
  }

  lemma ChainStarts(path: seq<string>, name: string, theme: Theme, s: Scopes)
    requires IsChain(path, name, theme, s, {})
    ensures path != []
  {
  }

  // ---------------------------------------------------------------- the two themes

  /** Dark reads the root scope alone. */
  lemma {:induction false} DarkIgnoresLight(name: string, s: Scopes, light: map<string, string>, seen: set<string>)
    ensures Resolve(name, Dark, s.(light := light), seen) == Resolve(name, Dark, s, seen)
    decreases |Declared(s) - seen|
  {
    hide Declared, Lookup;
    RootReads(name, s, light);
    var v := Lookup(name, Dark, s);
    if v.Some? && v.value.Var? && name !in seen {
      SeenShrinks(name, Dark, s, seen);
      DarkIgnoresLight(v.value.ref, s, light, seen + {name});
    }
  }

  lemma RootReads(n: string, s: Scopes, light: map<string, string>)
    ensures Lookup(n, Dark, s.(light := light)) == Lookup(n, Dark, s)
  {
  }

  lemma OverlayReads(n: string, s: Scopes)
    ensures Lookup(n, Light, s) == Lookup(n, Dark, Scopes(s.root + s.light, map[], s.parse))
    ensures Declared(Scopes(s.root + s.light, map[], s.parse)) == Declared(s)
  {
  }

  /** Light reads, at every hop, the root scope with the light declarations laid over it. */
  lemma {:induction false} LightIsOverlay(name: string, s: Scopes, seen: set<string>)
    ensures Resolve(name, Light, s, seen) == Resolve(name, Dark, Scopes(s.root + s.light, map[], s.parse), seen)
    decreases |Declared(s) - seen|
  {
    hide Declared, Lookup;
    OverlayReads(name, s);
    var v := Lookup(name, Light, s);
    if v.Some? && v.value.Var? && name !in seen {
      SeenShrinks(name, Light, s, seen);
      LightIsOverlay(v.value.ref, s, seen + {name});
    }
  }

  lemma SeenShrinks(name: string, theme: Theme, s: Scopes, seen: set<string>)
    requires Lookup(name, theme, s).Some? && name !in seen
    ensures |Declared(s) - (seen + {name})| < |Declared(s) - seen|
  {
    SeenGrows(name, s, seen);
  }
}
