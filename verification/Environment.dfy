/**
  The environment of a leased child process: an allow-list of the daemon's own variables, and the
  secret under the profile's variable. A binding is Go's: one string, the name up to the first '='.
*/
module Environment {
  const INHERITED := {"COLORTERM", "HOME", "LANG", "LC_ALL", "LC_CTYPE", "LOGNAME", "NO_COLOR", "PATH", "SHELL", "TEMP",
                      "TERM", "TMP", "TMPDIR", "TZ", "USER"}
  const STANDARD_PATH := "/opt/homebrew/bin:/usr/local/bin:/usr/bin:/bin:/usr/sbin:/sbin"

  function Equals(s: string): (i: nat)
    ensures i <= |s| && '=' !in s[..i] && (i < |s| ==> s[i] == '=')
  {
    if s == "" || s[0] == '=' then 0 else 1 + Equals(s[1..])
  }

  predicate IsBinding(s: string) { Equals(s) < |s| }

  /** `strings.Cut` at the first equals sign. */
  function NameOf(s: string): string { s[..Equals(s)] }

  function ValueOf(s: string): string
    requires IsBinding(s)
  {
    s[Equals(s) + 1..]
  }

  /** The values an environment gives a name, in order: the independent view of an environment. */
  function Bindings(env: seq<string>, name: string): seq<string> {
    if env == [] then []
    else (if IsBinding(env[0]) && NameOf(env[0]) == name then [ValueOf(env[0])] else []) + Bindings(env[1..], name)
  }

  // ---------------------------------------------------------------------- names

  predicate Letter(c: char) { 'A' <= c <= 'Z' || 'a' <= c <= 'z' }

  function Upper(s: string): string {
    seq(|s|, i requires 0 <= i < |s| => if 'a' <= s[i] <= 'z' then s[i] - 'a' + 'A' else s[i])
  }

  const DANGEROUS := {"PATH", "IFS", "BASH_ENV", "ENV", "PROMPT_COMMAND", "PYTHONPATH", "PYTHONHOME", "NODE_OPTIONS",
                      "RUBYOPT"}

  /** `validateEnvironment`. */
  predicate ValidName(name: string) {
    && name != "" && (Letter(name[0]) || name[0] == '_')
    && (forall i :: 0 <= i < |name| ==> Letter(name[i]) || '0' <= name[i] <= '9' || name[i] == '_')
    && Upper(name) !in DANGEROUS && !("LD_" <= Upper(name)) && !("DYLD_" <= Upper(name))
  }

  // ---------------------------------------------------------------------- the two loops

  predicate Inherited(s: string) { IsBinding(s) && NameOf(s) in INHERITED }

  function Allowed(env: seq<string>): seq<string> {
    if env == [] then []
    else (if Inherited(env[0]) then [env[0]] else []) + Allowed(env[1..])
  }

  function Minimal(env: seq<string>): seq<string> {
    if Bindings(env, "PATH") == [] then Allowed(env) + ["PATH=" + STANDARD_PATH] else Allowed(env)
  }

  function Others(env: seq<string>, prefix: string): seq<string> {
    if env == [] then []
    else (if prefix <= env[0] then [] else [env[0]]) + Others(env[1..], prefix)
  }

  function With(env: seq<string>, name: string, value: string): seq<string> {
    Others(env, name + "=") + [name + "=" + value]
  }

  lemma {:induction false} AllowedLast(env: seq<string>, s: string)
    ensures Allowed(env + [s]) == Allowed(env) + (if Inherited(s) then [s] else [])
  {
    if env != [] {
      assert (env + [s])[1..] == env[1..] + [s];
      AllowedLast(env[1..], s);
    }
  }

  lemma {:induction false} OthersLast(env: seq<string>, s: string, prefix: string)
    ensures Others(env + [s], prefix) == Others(env, prefix) + (if prefix <= s then [] else [s])
  {
    if env != [] {
      assert (env + [s])[1..] == env[1..] + [s];
      OthersLast(env[1..], s, prefix);
    }
  }

  lemma {:induction false} BindingsJoin(a: seq<string>, b: seq<string>, name: string)
    ensures Bindings(a + b, name) == Bindings(a, name) + Bindings(b, name)
  {
    if a == [] {
      assert a + b == b;
    } else {
      assert (a + b)[1..] == a[1..] + b;
      BindingsJoin(a[1..], b, name);
    }
  }

  lemma BindingsOfOne(s: string, name: string)
    ensures Bindings([s], name) == if IsBinding(s) && NameOf(s) == name then [ValueOf(s)] else []
  {
    assert [s][1..] == [];
    assert Bindings([], name) == [];
  }

  lemma OneMore(env: seq<string>, i: nat)
    requires i < |env|
    ensures Allowed(env[..i + 1]) == Allowed(env[..i]) + (if Inherited(env[i]) then [env[i]] else [])
    ensures Bindings(env[..i + 1], "PATH") != [] <==>
            Bindings(env[..i], "PATH") != [] || (IsBinding(env[i]) && NameOf(env[i]) == "PATH")
  {
    assert env[..i + 1] == env[..i] + [env[i]];
    AllowedLast(env[..i], env[i]);
    BindingsJoin(env[..i], [env[i]], "PATH");
    BindingsOfOne(env[i], "PATH");
  }

  /** `minimalEnvironment`, with its loop over the daemon's variables. */
  method MinimalEnvironment(environment: seq<string>) returns (minimal: seq<string>)
    ensures minimal == Minimal(environment)
  {
    minimal := [];
    var hasPath := false;
    for i := 0 to |environment|
      invariant minimal == Allowed(environment[..i])
      invariant hasPath <==> Bindings(environment[..i], "PATH") != []
    {
      var variable := environment[i];
      OneMore(environment, i);
      var at := Equals(variable);
      if at == |variable| {
        continue;
      }
      var name := variable[..at];
      if name in INHERITED {
        minimal := minimal + [variable];
        if name == "PATH" {
          hasPath := true;
        }
      }
    }
    assert environment[..|environment|] == environment;
    if !hasPath {
      minimal := minimal + ["PATH=" + STANDARD_PATH];
    }
  }

  /** `withEnvironment`, with its loop. */
  method WithEnvironment(environment: seq<string>, name: string, value: string) returns (updated: seq<string>)
    ensures updated == With(environment, name, value)
  {
    var prefix := name + "=";
    updated := [];
    for i := 0 to |environment|
      invariant updated == Others(environment[..i], prefix)
    {
      OthersLast(environment[..i], environment[i], prefix);
      assert environment[..i + 1] == environment[..i] + [environment[i]];
      if !(prefix <= environment[i]) {
        updated := updated + [environment[i]];
      }
    }
    assert environment[..|environment|] == environment;
    updated := updated + [prefix + value];
  }

  // ---------------------------------------------------------------------- what the child sees

  lemma {:induction false} CutsThere(name: string, value: string)
    requires '=' !in name
    ensures IsBinding(name + "=" + value) && NameOf(name + "=" + value) == name && ValueOf(name + "=" + value) == value
  {
    if name != "" {
      CutsThere(name[1..], value);
      assert name[0] in name;
      assert (name + "=" + value)[1..] == name[1..] + "=" + value;
    }
    assert Equals(name + "=" + value) == |name|;
  }

  /** A prefix "name=" means a binding of that name. */
  lemma PrefixIsBinding(s: string, name: string)
    requires '=' !in name
    ensures name + "=" <= s <==> IsBinding(s) && NameOf(s) == name
  {
    if name + "=" <= s {
      assert s == name + "=" + s[|name| + 1..];
      CutsThere(name, s[|name| + 1..]);
    }
    if IsBinding(s) && NameOf(s) == name {
      assert s[..|name| + 1] == name + "=";
    }
  }

  lemma {:induction false} AllowedBindings(env: seq<string>, m: string)
    ensures Bindings(Allowed(env), m) == if m in INHERITED then Bindings(env, m) else []
  {
    if env != [] {
      AllowedBindings(env[1..], m);
      if Inherited(env[0]) {
        BindingsJoin([env[0]], Allowed(env[1..]), m);
        BindingsOfOne(env[0], m);
      } else {
        assert Allowed(env) == Allowed(env[1..]);
      }
    }
  }

  lemma {:induction false} OthersBindings(env: seq<string>, name: string, m: string)
    requires '=' !in name
    ensures Bindings(Others(env, name + "="), m) == if m == name then [] else Bindings(env, m)
  {
    if env != [] {
      OthersBindings(env[1..], name, m);
      PrefixIsBinding(env[0], name);
      if !(name + "=" <= env[0]) {
        BindingsJoin([env[0]], Others(env[1..], name + "="), m);
        BindingsOfOne(env[0], m);
      } else {
        assert Others(env, name + "=") == Others(env[1..], name + "=");
      }
    }
  }

  lemma {:induction false} NoBindingWithEquals(env: seq<string>, name: string)
    requires '=' in name
    ensures Bindings(env, name) == []
  {
    if env != [] {
      NoBindingWithEquals(env[1..], name);
    }
  }

  /** The value is the one binding of the name exactly when the name holds no equals sign. */
  lemma BindsExactlyOnce(env: seq<string>, name: string, value: string)
    ensures Bindings(With(env, name, value), name) == [value] <==> '=' !in name
  {
    if '=' in name {
      NoBindingWithEquals(With(env, name, value), name);
    } else {
      OthersBindings(env, name, name);
      CutsThere(name, value);
      BindingsOfOne(name + "=" + value, name);
      BindingsJoin(Others(env, name + "="), [name + "=" + value], name);
    }
  }

  /** A name that passes validation has no equals sign and is not the search path. */
  lemma ValidNamesAreSafe(name: string)
    requires ValidName(name)
    ensures '=' !in name && name != "PATH"
  {
    assert Upper("PATH") == "PATH";
  }

  /** The letters are those of `m`, in any case. */
  predicate Reads(name: string, m: string) {
    |name| == |m| && forall i :: 0 <= i < |m| ==> name[i] == m[i] || ('A' <= m[i] <= 'Z' && name[i] == m[i] - 'A' + 'a')
  }

  lemma ReadsUpper(name: string, m: string)
    requires forall i :: 0 <= i < |m| ==> !('a' <= m[i] <= 'z')
    ensures Reads(name, m) <==> Upper(name) == m
  {
    if Upper(name) == m {
      assert forall i :: 0 <= i < |m| ==> Upper(name)[i] == m[i];
    }
  }

  predicate Begins(name: string, m: string) { |m| <= |name| && Reads(name[..|m|], m) }

  lemma BeginsUpper(name: string, m: string)
    requires forall i :: 0 <= i < |m| ==> !('a' <= m[i] <= 'z')
    ensures Begins(name, m) <==> m <= Upper(name)
  {
    if |m| <= |name| {
      ReadsUpper(name[..|m|], m);
      assert Upper(name[..|m|]) == Upper(name)[..|m|];
    }
  }

  /**
    The names refused are those no variable has, and, in whatever case they are written, those by which a
    shell, the loader or an interpreter can be made to run something else.
  */
  lemma NamesExactly(name: string)
    ensures ValidName(name) <==>
            && name != "" && !('0' <= name[0] <= '9')
            && (forall i :: 0 <= i < |name| ==>
                  'A' <= name[i] <= 'Z' || 'a' <= name[i] <= 'z' || '0' <= name[i] <= '9' || name[i] == '_')
            && !Begins(name, "LD_") && !Begins(name, "DYLD_")
            && var refused := ["PATH", "IFS", "BASH_ENV", "ENV", "PROMPT_COMMAND", "PYTHONPATH", "PYTHONHOME",
                               "NODE_OPTIONS", "RUBYOPT"];
               forall m :: m in refused ==> !Reads(name, m)
  {
    var refused := ["PATH", "IFS", "BASH_ENV", "ENV", "PROMPT_COMMAND", "PYTHONPATH", "PYTHONHOME", "NODE_OPTIONS",
                    "RUBYOPT"];
    forall m | m in refused ensures Reads(name, m) <==> Upper(name) == m {
      ReadsUpper(name, m);
    }
    forall m ensures m in refused <==> m in DANGEROUS {}
    BeginsUpper(name, "LD_");
    BeginsUpper(name, "DYLD_");
  }

  lemma OrdinaryNamesPass()
    ensures ValidName("API_TOKEN") && ValidName("_k9") && !ValidName("9K") && !ValidName("A-B") && !ValidName("")
  {
    var a, b := "API_TOKEN", "_k9";
    assert Upper(a) == a && Upper(b) == "_K9";
    assert Upper(a)[0] == 'A' && Upper(b)[0] == '_';
    assert "A-B"[1] == '-';
  }

  /** The values a child started with a validated name sees under a name. */
  function Seen(env: seq<string>, name: string, value: string, m: string): seq<string> {
    if m == name then [value]
    else if m !in ["COLORTERM", "HOME", "LANG", "LC_ALL", "LC_CTYPE", "LOGNAME", "NO_COLOR", "PATH", "SHELL", "TEMP",
                   "TERM", "TMP", "TMPDIR", "TZ", "USER"] then []
    else if m == "PATH" && Bindings(env, m) == []
    then ["/opt/homebrew/bin:/usr/local/bin:/usr/bin:/bin:/usr/sbin:/sbin"]
    else Bindings(env, m)
  }

  /**
    Under every name: the secret once under the profile's own, the daemon's own values under the
    allow-listed ones, a search path always, and nothing else.
  */
  lemma ChildSees(env: seq<string>, name: string, value: string, m: string)
    requires ValidName(name)
    ensures Bindings(With(Minimal(env), name, value), m) == Seen(env, name, value, m)
    ensures Bindings(With(Minimal(env), name, value), "PATH") != []
  {
    ValidNamesAreSafe(name);
    ChildSeesUnder(env, name, value, m);
    ChildSeesUnder(env, name, value, "PATH");
  }

  lemma ChildSeesUnder(env: seq<string>, name: string, value: string, m: string)
    requires '=' !in name && name != "PATH"
    ensures Bindings(With(Minimal(env), name, value), m) == Seen(env, name, value, m)
  {
    BindsExactlyOnce(Minimal(env), name, value);
    if m != name {
      CutsThere(name, value);
      BindingsOfOne(name + "=" + value, m);
      BindingsJoin(Others(Minimal(env), name + "="), [name + "=" + value], m);
      OthersBindings(Minimal(env), name, m);
      MinimalBindings(env, m);
    }
  }

  /** The daemon's own values under the allow-listed names, and a search path when there was none. */
  lemma MinimalBindings(env: seq<string>, m: string)
    ensures Bindings(Minimal(env), m) ==
            if m !in INHERITED then []
            else if m == "PATH" && Bindings(env, m) == [] then [STANDARD_PATH]
            else Bindings(env, m)
  {
    AllowedBindings(env, m);
    if Bindings(env, "PATH") == [] {
      var path := "PATH" + "=" + STANDARD_PATH;
      CutsThere("PATH", STANDARD_PATH);
      BindingsOfOne(path, m);
      BindingsJoin(Allowed(env), [path], m);
      assert "PATH=" == "PATH" + "=";
    }
  }

  /** Every entry is a binding: nothing reaches the child that no name accounts for. */
  lemma {:induction false} EntriesAreBindings(env: seq<string>, name: string, value: string)
    requires ValidName(name)
    ensures forall s :: s in With(Minimal(env), name, value) ==> IsBinding(s)
  {
    ValidNamesAreSafe(name);
    CutsThere(name, value);
    CutsThere("PATH", STANDARD_PATH);
    assert "PATH=" == "PATH" + "=";
    AllowedAreBindings(env);
    OthersAreSome(Minimal(env), name + "=");
  }

  lemma {:induction false} AllowedAreBindings(env: seq<string>)
    ensures forall s :: s in Allowed(env) ==> IsBinding(s)
  {
    if env != [] {
      AllowedAreBindings(env[1..]);
    }
  }

  lemma {:induction false} OthersAreSome(env: seq<string>, prefix: string)
    ensures forall s :: s in Others(env, prefix) ==> s in env
  {
    if env != [] {
      OthersAreSome(env[1..], prefix);
    }
  }
}
