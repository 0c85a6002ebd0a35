/** The API's cross-origin policy: the allowlist read from the CORS_ORIGIN
    environment variable and the decision the `origin` callback takes for
    each request. */
module Cors {
  import opened Common
  import opened Text

  /** s.split(","): the pieces between commas, in order; "" gives [""]. */
  function Split(s: string): (parts: seq<string>)
    ensures |parts| >= 1
    ensures forall i :: 0 <= i < |parts| ==> ',' !in parts[i]
  {
    if s == [] then [[]]
    else
      var rest := Split(s[1..]);
      if s[0] == ',' then [[]] + rest
      else [[s[0]] + rest[0]] + rest[1..]
  }

  /** parts.join(","), the inverse of Split. */
  function Join(parts: seq<string>): string {
    if |parts| == 0 then []
    else if |parts| == 1 then parts[0]
    else parts[0] + [','] + Join(parts[1..])
  }

  lemma {:induction false} JoinSplit(s: string)
    ensures Join(Split(s)) == s
  {
    if s != [] {
      var rest := Split(s[1..]);
      JoinSplit(s[1..]);
      if s[0] == ',' {
        assert Split(s) == [[]] + rest;
        assert Split(s)[1..] == rest;
      } else {
        var parts := Split(s);
        assert parts[1..] == rest[1..];
        if |rest| == 1 {
          assert Join(parts) == [s[0]] + rest[0];
        } else {
          assert Join(rest) == rest[0] + [','] + Join(rest[1..]);
          assert Join(parts) == ([s[0]] + rest[0]) + [','] + Join(rest[1..]);
        }
        assert s == [s[0]] + s[1..];
      }
    }
  }

  lemma SplitCons(c: char, t: string)
    ensures Split([c] + t) == if c == ',' then [[]] + Split(t) else [[c] + Split(t)[0]] + Split(t)[1..]
  {
    assert ([c] + t)[1..] == t;
  }

  /** A comma splits the text into the pieces of each side. */
  lemma {:induction false} SplitAtComma(a: string, b: string)
    ensures Split(a + [','] + b) == Split(a) + Split(b)
  {
    if a == [] {
      assert a + [','] + b == [','] + b;
      SplitCons(',', b);
    } else {
      var t := a[1..];
      assert a == [a[0]] + t;
      assert a + [','] + b == [a[0]] + (t + [','] + b);
      SplitAtComma(t, b);
      SplitCons(a[0], t + [','] + b);
      SplitCons(a[0], t);
    }
  }

  lemma {:induction false} SplitNoComma(s: string)
    requires ',' !in s
    ensures Split(s) == [s]
  {
    if s != [] {
      SplitNoComma(s[1..]);
      assert [s[0]] + s[1..] == s;
    }
  }

  /** .map(s => s.trim()).filter(Boolean): trims every piece and drops the
      pieces left empty. */
  function Entries(parts: seq<string>): (r: seq<string>)
    ensures |r| <= |parts|
    ensures forall i :: 0 <= i < |r| ==> r[i] != [] && Trimmed(r[i])
  {
    if parts == [] then []
    else
      var t := Trim(parts[0]);
      var rest := Entries(parts[1..]);
      if t == [] then rest else [t] + rest
  }

  /** Comma-free pieces give comma-free entries. */
  lemma {:induction false} EntriesNoComma(parts: seq<string>)
    requires forall i :: 0 <= i < |parts| ==> ',' !in parts[i]
    ensures forall i :: 0 <= i < |Entries(parts)| ==> ',' !in Entries(parts)[i]
  {
    if parts != [] {
      EntriesNoComma(parts[1..]);
      TrimKeepsOut(parts[0], ',');
    }
  }

  lemma {:induction false} EntriesAppend(a: seq<string>, b: seq<string>)
    ensures Entries(a + b) == Entries(a) + Entries(b)
  {
    if a == [] {
      assert a + b == b;
    } else {
      var ab := a + b;
      assert ab[0] == a[0];
      assert ab[1..] == a[1..] + b;
      EntriesAppend(a[1..], b);
      var t := Trim(a[0]);
      if t != [] {
        calc {
          Entries(ab);
          [t] + Entries(a[1..] + b);
          [t] + (Entries(a[1..]) + Entries(b));
          ([t] + Entries(a[1..])) + Entries(b);
        }
      }
    }
  }

  /** The allowlist, read from process.env.CORS_ORIGIN || "": every entry is
      non-empty, carries no surrounding spaces and no comma, and an unset
      variable gives an empty list. */
  function Allowlist(env: Option<string>): (allowed: seq<string>)
    ensures forall i :: 0 <= i < |allowed| ==> allowed[i] != [] && Trimmed(allowed[i]) && ',' !in allowed[i]
    ensures env.None? ==> allowed == []
  {
    var text := if env.Some? then env.value else [];
    EntriesNoComma(Split(text));
    Entries(Split(text))
  }

  datatype Verdict = Allowed | Blocked

  /** The origin callback: cb(null, true) is Allowed, cb(new Error("CORS
      blocked"), false) is Blocked. A missing Origin header and an empty one
      are both falsy in `!origin`. */
  function Decide(origin: Option<string>, allowed: seq<string>): (v: Verdict)
    ensures origin.None? || origin.value == [] ==> v == Allowed
    ensures allowed == [] ==> v == Allowed
    ensures origin.Some? && origin.value in allowed ==> v == Allowed
    ensures origin.Some? && origin.value != [] && allowed != [] && origin.value !in allowed ==> v == Blocked
  {
    if origin.None? || origin.value == [] then Allowed
    else if |allowed| == 0 then Allowed
    else if origin.value in allowed then Allowed
    else Blocked
  }

  /** A list written "a,b" allows exactly what the lists "a" and "b" allow together. */
  lemma AllowlistOfJoined(a: string, b: string)
    ensures Allowlist(Some(a + [','] + b)) == Allowlist(Some(a)) + Allowlist(Some(b))
  {
    SplitAtComma(a, b);
    EntriesAppend(Split(a), Split(b));
  }

  /** One origin, however it is padded with spaces, is the whole allowlist:
      that origin passes and every other origin with a value is blocked. */
  lemma SingleOrigin(pre: string, o: string, post: string, other: string)
    requires AllSpace(pre) && AllSpace(post)
    requires o != [] && Trimmed(o) && ',' !in o
    requires ',' !in pre && ',' !in post
    requires other != [] && other != o
    ensures Allowlist(Some(pre + o + post)) == [o]
    ensures Decide(Some(o), Allowlist(Some(pre + o + post))) == Allowed
    ensures Decide(Some(other), Allowlist(Some(pre + o + post))) == Blocked
  {
    var s := pre + o + post;
    assert ',' !in s by {
      forall k | 0 <= k < |s| ensures s[k] != ',' {
        if k < |pre| { assert s[k] == pre[k]; }
        else if k < |pre| + |o| { assert s[k] == o[k - |pre|]; }
        else { assert s[k] == post[k - |pre| - |o|]; }
      }
    }
    SplitNoComma(s);
    TrimPadded(pre, o, post);
    assert Entries([s]) == [o];
  }

  /** Pieces made of spaces only contribute no entry. */
  lemma {:induction false} BlankEntries(s: string)
    requires forall k :: 0 <= k < |s| ==> s[k] == ',' || IsSpace(s[k])
    ensures Entries(Split(s)) == []
  {
    if s != [] {
      BlankEntries(s[1..]);
      var rest := Split(s[1..]);
      if s[0] == ',' {
        EntriesAppend([[]], rest);
        assert Trim([]) == [];
      } else {
        assert rest == [rest[0]] + rest[1..];
        EntriesAppend([rest[0]], rest[1..]);
        EntriesAppend([[s[0]] + rest[0]], rest[1..]);
        assert Entries([rest[0]]) == [];
        TrimEmptyIff(rest[0]);
        TrimEmptyIff([s[0]] + rest[0]);
        assert Split(s) == [[s[0]] + rest[0]] + rest[1..];
      }
    }
  }

  /** A CORS_ORIGIN made only of commas and spaces yields an empty allowlist,
      which lets every origin through. */
  lemma BlankSettingAllowsAll(env: string, origin: string)
    requires forall k :: 0 <= k < |env| ==> env[k] == ',' || IsSpace(env[k])
    ensures Allowlist(Some(env)) == []
    ensures Decide(Some(origin), Allowlist(Some(env))) == Allowed
  {
    BlankEntries(env);
  }

  /** With a configured list, an origin that contains a comma can never match
      an entry, since no entry holds one (see Allowlist), so it is blocked. */
  lemma CommaOriginBlocked(allowed: seq<string>, origin: string)
    requires allowed != [] && forall i :: 0 <= i < |allowed| ==> ',' !in allowed[i]
    requires ',' in origin
    ensures Decide(Some(origin), allowed) == Blocked
  {
  }
}
