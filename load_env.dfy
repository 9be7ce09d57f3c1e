/** Loading `.env` assignments into the process environment. The file's
    lines are a parameter (`None` when the file does not exist); the
    environment is a map that the loader extends and never overwrites. */
module EnvFile {
  import opened Wrappers
  import opened Strings

  /** The first position of `c` in `s`, if any. */
  function IndexOf(s: string, c: char): (r: Option<nat>)
    ensures r.Some? ==> r.value < |s| && s[r.value] == c && c !in s[..r.value]
    ensures r.None? <==> c !in s
  {
    if s == [] then None
    else if s[0] == c then Some(0)
    else
      match IndexOf(s[1..], c)
      case None => None
      case Some(i) =>
        assert s[..i + 1] == [s[0]] + s[1..][..i];
        Some(i + 1)
  }

  /** A stripped line split at its first `=` into key and value; `None`
      for an empty line, a comment and a line without `=`. */
  function Assignment(t: string): Option<(string, string)> {
    if t == [] || t[0] == '#' then None
    else
      match IndexOf(t, '=')
      case None => None
      case Some(i) => Some((t[..i], t[i + 1..]))
  }

  /** One line of the file, stripped of surrounding white space first. */
  function ParseLine(line: string): Option<(string, string)> {
    Assignment(Strip(line))
  }

  /** A stripped line is an assignment exactly when it is not empty, not a
      comment and holds a `=`; key, `=` and value then make up the line
      again, and the key holds no `=`. */
  lemma AssignmentSpec(t: string)
    ensures Assignment(t).Some? <==> t != [] && t[0] != '#' && '=' in t
    ensures Assignment(t).Some? ==>
      Assignment(t).value.0 + "=" + Assignment(t).value.1 == t && '=' !in Assignment(t).value.0
  {
    if Assignment(t).Some? {
      var i := IndexOf(t, '=').value;
      assert t[..i] + "=" + t[i + 1..] == t;
    }
  }

  /** Whether the environment accepts the assignment: setting a variable
      with an empty name or with a NUL character in its name or value
      raises. */
  predicate Legal(key: string, value: string) {
    key != [] && '\0' !in key && '\0' !in value
  }

  /** The environment after the loader, and whether it ran to the end
      (`ok`) or stopped at an assignment the environment refused. */
  datatype Loaded = Loaded(env: map<string, string>, ok: bool)

  /** The loader over `lines`, starting from `env`: each assignment whose
      key is not yet set is applied; the first refused one stops it. */
  function Apply(env: map<string, string>, lines: seq<string>): Loaded
    decreases |lines|
  {
    if lines == [] then Loaded(env, true)
    else
      match ParseLine(lines[0])
      case None => Apply(env, lines[1..])
      case Some((k, v)) =>
        if k in env then Apply(env, lines[1..])
        else if !Legal(k, v) then Loaded(env, false)
        else Apply(env[k := v], lines[1..])
  }

  /** `load_env`: nothing happens when the file does not exist. */
  function Load(env: map<string, string>, file: Option<seq<string>>): Loaded {
    match file
    case None => Loaded(env, true)
    case Some(lines) => Apply(env, lines)
  }

  /** The value the first assignment to `k` in `lines` gives it. */
  function FirstValue(lines: seq<string>, k: string): Option<string>
    decreases |lines|
  {
    if lines == [] then None
    else
      match ParseLine(lines[0])
      case Some((k', v)) => if k' == k then Some(v) else FirstValue(lines[1..], k)
      case None => FirstValue(lines[1..], k)
  }

  /** A variable already set keeps its value. */
  lemma {:induction false} ApplyKeeps(env: map<string, string>, lines: seq<string>)
    ensures forall k :: k in env ==> k in Apply(env, lines).env && Apply(env, lines).env[k] == env[k]
    decreases |lines|
  {
    if lines != [] {
      match ParseLine(lines[0])
      case None =>
        assert Apply(env, lines) == Apply(env, lines[1..]);
        ApplyKeeps(env, lines[1..]);
      case Some((k0, v0)) =>
        if k0 in env {
          assert Apply(env, lines) == Apply(env, lines[1..]);
          ApplyKeeps(env, lines[1..]);
        } else if Legal(k0, v0) {
          var env' := env[k0 := v0];
          assert Apply(env, lines) == Apply(env', lines[1..]);
          ApplyKeeps(env', lines[1..]);
          assert forall k :: k in env ==> k in env' && env'[k] == env[k];
        } else {
          assert Apply(env, lines).env == env;
        }
    }
  }

  /** `FirstValue` one line at a time. */
  lemma FirstValueStep(lines: seq<string>, k: string, k0: string, v0: string)
    requires lines != [] && ParseLine(lines[0]) == Some((k0, v0))
    ensures FirstValue(lines, k) == if k0 == k then Some(v0) else FirstValue(lines[1..], k)
  {
  }

  /** Every variable the loader adds takes the value of the first
      assignment to it in the file. */
  lemma {:induction false} ApplyValues(env: map<string, string>, lines: seq<string>)
    ensures forall k :: k in Apply(env, lines).env ==> k in env || FirstValue(lines, k).Some?
    ensures forall k :: k in Apply(env, lines).env && k !in env ==>
      Apply(env, lines).env[k] == FirstValue(lines, k).value
    decreases |lines|
  {
    if lines != [] {
      var r := Apply(env, lines);
      match ParseLine(lines[0])
      case None => ApplyValues(env, lines[1..]);
      case Some((k0, v0)) =>
        if k0 in env {
          ApplyValues(env, lines[1..]);
          forall k | k in r.env ensures k in env || FirstValue(lines, k).Some? {
            FirstValueStep(lines, k, k0, v0);
          }
          forall k | k in r.env && k !in env ensures r.env[k] == FirstValue(lines, k).value {
            FirstValueStep(lines, k, k0, v0);
          }
        } else if Legal(k0, v0) {
          var env' := env[k0 := v0];
          ApplyValues(env', lines[1..]);
          ApplyKeeps(env', lines[1..]);
          forall k | k in r.env ensures k in env || FirstValue(lines, k).Some? {
            FirstValueStep(lines, k, k0, v0);
          }
          forall k | k in r.env && k !in env ensures r.env[k] == FirstValue(lines, k).value {
            FirstValueStep(lines, k, k0, v0);
            if k == k0 {
              assert r.env[k] == env'[k];
            }
          }
        }
    }
  }

  /** When the loader ran to the end, every variable assigned in the file
      is set. */
  lemma {:induction false} ApplyComplete(env: map<string, string>, lines: seq<string>)
    ensures Apply(env, lines).ok ==> forall k :: FirstValue(lines, k).Some? ==> k in Apply(env, lines).env
    decreases |lines|
  {
    if lines != [] {
      var r := Apply(env, lines);
      match ParseLine(lines[0])
      case None => ApplyComplete(env, lines[1..]);
      case Some((k0, v0)) =>
        if k0 in env {
          ApplyComplete(env, lines[1..]);
          ApplyKeeps(env, lines[1..]);
          forall k | r.ok && FirstValue(lines, k).Some? ensures k in r.env {
            FirstValueStep(lines, k, k0, v0);
          }
        } else if Legal(k0, v0) {
          var env' := env[k0 := v0];
          ApplyComplete(env', lines[1..]);
          ApplyKeeps(env', lines[1..]);
          forall k | r.ok && FirstValue(lines, k).Some? ensures k in r.env {
            FirstValueStep(lines, k, k0, v0);
          }
        }
    }
  }

  /** The first assignment in `lines` to each variable not set in `env`
      is one the environment accepts. */
  ghost predicate FirstAssignmentsLegal(env: map<string, string>, lines: seq<string>) {
    forall k :: FirstValue(lines, k).Some? && k !in env ==> Legal(k, FirstValue(lines, k).value)
  }

  /** The loader runs to the end exactly when the first assignment in the
      file to each variable not already set is one the environment
      accepts. */
  lemma ApplyOk(env: map<string, string>, lines: seq<string>)
    ensures Apply(env, lines).ok <==> FirstAssignmentsLegal(env, lines)
  {
    if Apply(env, lines).ok {
      ApplyOkLegal(env, lines);
    } else {
      ApplyStopIllegal(env, lines);
    }
  }

  lemma {:induction false} ApplyOkLegal(env: map<string, string>, lines: seq<string>)
    requires Apply(env, lines).ok
    ensures FirstAssignmentsLegal(env, lines)
    decreases |lines|
  {
    if lines != [] {
      match ParseLine(lines[0])
      case None => ApplyOkLegal(env, lines[1..]);
      case Some((k0, v0)) =>
        if k0 in env {
          ApplyOkLegal(env, lines[1..]);
          forall k | FirstValue(lines, k).Some? && k !in env ensures Legal(k, FirstValue(lines, k).value) {
            FirstValueStep(lines, k, k0, v0);
          }
        } else {
          ApplyOkLegal(env[k0 := v0], lines[1..]);
          forall k | FirstValue(lines, k).Some? && k !in env ensures Legal(k, FirstValue(lines, k).value) {
            FirstValueStep(lines, k, k0, v0);
            if k != k0 {
              assert k !in env[k0 := v0];
            }
          }
        }
    }
  }

  lemma {:induction false} ApplyStopIllegal(env: map<string, string>, lines: seq<string>)
    requires !Apply(env, lines).ok
    ensures !FirstAssignmentsLegal(env, lines)
    decreases |lines|
  {
    match ParseLine(lines[0])
    case None =>
      ApplyStopIllegal(env, lines[1..]);
      var k :| FirstValue(lines[1..], k).Some? && k !in env && !Legal(k, FirstValue(lines[1..], k).value);
      assert FirstValue(lines, k) == FirstValue(lines[1..], k);
    case Some((k0, v0)) =>
      FirstValueStep(lines, k0, k0, v0);
      if k0 in env {
        ApplyStopIllegal(env, lines[1..]);
        var k :| FirstValue(lines[1..], k).Some? && k !in env && !Legal(k, FirstValue(lines[1..], k).value);
        FirstValueStep(lines, k, k0, v0);
      } else if Legal(k0, v0) {
        ApplyStopIllegal(env[k0 := v0], lines[1..]);
        var k :| FirstValue(lines[1..], k).Some? && k !in env[k0 := v0]
                 && !Legal(k, FirstValue(lines[1..], k).value);
        FirstValueStep(lines, k, k0, v0);
      }
  }

  /** The loop of `load_env`. */
  method LoadEnv(env: map<string, string>, file: Option<seq<string>>) returns (r: Loaded)
    ensures r == Load(env, file)
  {
    if file.None? {
      return Loaded(env, true);
    }
    var lines := file.value;
    var cur := env;
    var i := 0;
    while i < |lines|
      invariant 0 <= i <= |lines|
      invariant Apply(env, lines) == Apply(cur, lines[i..])
    {
      assert lines[i..][1..] == lines[i + 1..];
      var assignment := ParseLine(lines[i]);
      if assignment.Some? {
        var (key, value) := assignment.value;
        if key !in cur {
          if !Legal(key, value) {
            return Loaded(cur, false);
          }
          cur := cur[key := value];
        }
      }
      i := i + 1;
    }
    return Loaded(cur, true);
  }
}
