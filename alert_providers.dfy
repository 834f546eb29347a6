/**
  The dispatcher's provider choice (`getProvider`): for each requested channel flag,
  in order, the first active provider with that flag in the registry's priority
  order, at most one per flag; the chosen channels are then sorted by priority.
 */
module AlertProviders {
  import opened Wrappers
  import opened Notifications

  /** A provider that may serve `flag`. */
  predicate Serves(p: Provider, flag: string) {
    p.status && p.flag == flag
  }

  /** The position of the first provider in `ps` that serves `flag`, if any. */
  function FirstServing(ps: seq<Provider>, flag: string): (r: Option<nat>)
    ensures r.Some? ==> r.value < |ps| && Serves(ps[r.value], flag)
    ensures r.Some? ==> forall j :: 0 <= j < r.value ==> !Serves(ps[j], flag)
    ensures r.None? ==> forall j :: 0 <= j < |ps| ==> !Serves(ps[j], flag)
    decreases |ps|
  {
    if |ps| == 0 then None
    else
      var init := FirstServing(ps[..|ps| - 1], flag);
      if init.Some? then Some(init.value)
      else if Serves(ps[|ps| - 1], flag) then Some(|ps| - 1)
      else None
  }

  /**
    The providers chosen for `flags`, in the order they are found, when the flags in
    `taken` already have one.
   */
  function Choose(flags: seq<string>, ps: seq<Provider>, taken: seq<string>): (r: seq<Provider>)
    decreases |flags|
  {
    if |flags| == 0 then []
    else
      var f := flags[0];
      var first := FirstServing(ps, f);
      if f in taken || first.None? then Choose(flags[1..], ps, taken)
      else [ps[first.value]] + Choose(flags[1..], ps, taken + [f])
  }

  /** The flags of a list of providers. */
  function Flags(ps: seq<Provider>): (r: seq<string>)
    ensures |r| == |ps|
    ensures forall i :: 0 <= i < |ps| ==> r[i] == ps[i].flag
  {
    seq(|ps|, i requires 0 <= i < |ps| => ps[i].flag)
  }

  /**
    Every chosen provider is active, serves a requested flag not taken before, and is
    the first in priority order among those serving its flag.
   */
  lemma {:induction false} ChooseFirst(flags: seq<string>, ps: seq<Provider>, taken: seq<string>)
    ensures forall p :: p in Choose(flags, ps, taken) ==>
      p.status && p.flag in flags && p.flag !in taken
      && FirstServing(ps, p.flag).Some? && ps[FirstServing(ps, p.flag).value] == p
    decreases |flags|
  {
    if |flags| > 0 {
      var f := flags[0];
      var first := FirstServing(ps, f);
      if f in taken || first.None? {
        ChooseFirst(flags[1..], ps, taken);
      } else {
        ChooseFirst(flags[1..], ps, taken + [f]);
      }
    }
  }

  /** No flag is served twice. */
  lemma {:induction false} ChooseOnePerFlag(flags: seq<string>, ps: seq<Provider>, taken: seq<string>)
    ensures forall i, j :: 0 <= i < j < |Choose(flags, ps, taken)| ==>
      Choose(flags, ps, taken)[i].flag != Choose(flags, ps, taken)[j].flag
    decreases |flags|
  {
    if |flags| > 0 {
      var f := flags[0];
      var first := FirstServing(ps, f);
      if f in taken || first.None? {
        ChooseOnePerFlag(flags[1..], ps, taken);
      } else {
        var t1 := taken + [f];
        ChooseOnePerFlag(flags[1..], ps, t1);
        ChooseFirst(flags[1..], ps, t1);
        var rest := Choose(flags[1..], ps, t1);
        var r := [ps[first.value]] + rest;
        forall i, j | 0 <= i < j < |r| ensures r[i].flag != r[j].flag {
          assert r[j] == rest[j - 1];
          if i == 0 {
            assert r[j] in rest;
          } else {
            assert r[i] == rest[i - 1];
          }
        }
      }
    }
  }

  /** Every requested, untaken flag that some active provider serves is served. */
  lemma {:induction false} ChooseComplete(flags: seq<string>, ps: seq<Provider>, taken: seq<string>, g: string)
    requires g in flags && g !in taken && FirstServing(ps, g).Some?
    ensures g in Flags(Choose(flags, ps, taken))
    decreases |flags|
  {
    var f := flags[0];
    var first := FirstServing(ps, f);
    if f in taken || first.None? {
      ChooseComplete(flags[1..], ps, taken, g);
    } else {
      var rest := Choose(flags[1..], ps, taken + [f]);
      var r := [ps[first.value]] + rest;
      if g == f {
        assert Flags(r)[0] == f;
      } else {
        ChooseComplete(flags[1..], ps, taken + [f], g);
        var k :| 0 <= k < |rest| && Flags(rest)[k] == g;
        assert Flags(r)[k + 1] == g;
      }
    }
  }

  predicate SortedByPriority(cs: seq<Channel>) {
    forall i, j :: 0 <= i < j < |cs| ==> cs[i].priority <= cs[j].priority
  }

  /** `x` placed before the first channel with a higher priority number in `s`. */
  function Insert(s: seq<Channel>, x: Channel): (r: seq<Channel>)
    ensures |r| == |s| + 1
    decreases |s|
  {
    if |s| == 0 then [x]
    else if x.priority <= s[0].priority then [x] + s
    else [s[0]] + Insert(s[1..], x)
  }

  lemma {:induction false} InsertPermutes(s: seq<Channel>, x: Channel)
    ensures multiset(Insert(s, x)) == multiset(s) + multiset{x}
    decreases |s|
  {
    if |s| > 0 && x.priority > s[0].priority {
      InsertPermutes(s[1..], x);
      assert s == [s[0]] + s[1..];
    }
  }

  lemma {:induction false} InsertSorted(s: seq<Channel>, x: Channel)
    requires SortedByPriority(s)
    ensures SortedByPriority(Insert(s, x))
    decreases |s|
  {
    if |s| > 0 && x.priority > s[0].priority {
      var rest := Insert(s[1..], x);
      InsertSorted(s[1..], x);
      InsertPermutes(s[1..], x);
      var r := [s[0]] + rest;
      forall i, j | 0 <= i < j < |r| ensures r[i].priority <= r[j].priority {
        if i == 0 {
          assert r[j] in multiset(rest);
          assert r[j] in s[1..] || r[j] == x;
        } else {
          assert r[i] == rest[i - 1] && r[j] == rest[j - 1];
        }
      }
    }
  }

  /**
    `slices.SortFunc` by `GetPriority`: ascending priority, the same channels. The sort
    is not stable, so channels of equal priority may come in any order.
   */
  method SortByPriority(cs: seq<Channel>) returns (r: seq<Channel>)
    ensures SortedByPriority(r) && multiset(r) == multiset(cs)
  {
    r := [];
    var i := 0;
    while i < |cs|
      invariant 0 <= i <= |cs|
      invariant SortedByPriority(r) && multiset(r) == multiset(cs[..i])
    {
      assert cs[..i + 1] == cs[..i] + [cs[i]];
      InsertPermutes(r, cs[i]);
      InsertSorted(r, cs[i]);
      r := Insert(r, cs[i]);
      i := i + 1;
    }
    assert cs[..i] == cs;
  }

  function Channels(ps: seq<Provider>): (r: seq<Channel>)
    ensures |r| == |ps|
    ensures forall i :: 0 <= i < |ps| ==> r[i] == ps[i].channel
  {
    seq(|ps|, i requires 0 <= i < |ps| => ps[i].channel)
  }

  /**
    One pass of `getProvider`'s inner loop for `flag`: the first provider serving it is
    chosen, unless its flag is already taken.
   */
  method PickFor(flag: string, ps: seq<Provider>, chosen0: seq<Provider>, taken0: seq<string>)
    returns (chosen: seq<Provider>, taken: seq<string>)
    ensures flag in taken0 || FirstServing(ps, flag).None? ==> chosen == chosen0 && taken == taken0
    ensures flag !in taken0 && FirstServing(ps, flag).Some? ==>
      chosen == chosen0 + [ps[FirstServing(ps, flag).value]] && taken == taken0 + [flag]
  {
    chosen, taken := chosen0, taken0;
    var j := 0;
    while j < |ps|
      invariant 0 <= j <= |ps|
      invariant flag in taken0 || FirstServing(ps[..j], flag).None? ==> chosen == chosen0 && taken == taken0
      invariant flag !in taken0 && FirstServing(ps[..j], flag).Some? ==>
        chosen == chosen0 + [ps[FirstServing(ps[..j], flag).value]] && taken == taken0 + [flag]
    {
      assert ps[..j + 1][..j] == ps[..j];
      var p := ps[j];
      if p.flag in taken {
        j := j + 1;
        continue;
      }
      if p.status && p.flag == flag {
        chosen := chosen + [p];
        taken := taken + [p.flag];
      }
      j := j + 1;
    }
    assert ps[..j] == ps;
  }

  /**
    `getProvider`: the registry's error is passed on; the nested loops collect the
    choice; the channels come back sorted, or the error "no active provider found".
   */
  method GetProvider(flags: seq<string>, registry: Result<seq<Provider>, string>)
    returns (r: Result<seq<Channel>, string>)
    ensures registry.Err? ==> r == Err(registry.error)
    ensures registry.Ok? && |Choose(flags, registry.value, [])| == 0 ==> r == Err("no active provider found")
    ensures registry.Ok? && |Choose(flags, registry.value, [])| > 0 ==>
      r.Ok? && SortedByPriority(r.value)
      && multiset(r.value) == multiset(Channels(Choose(flags, registry.value, [])))
  {
    if registry.Err? {
      return Err(registry.error);
    }
    var ps := registry.value;
    var chosen: seq<Provider> := [];
    var taken: seq<string> := [];
    var k := 0;
    while k < |flags|
      invariant 0 <= k <= |flags|
      invariant chosen + Choose(flags[k..], ps, taken) == Choose(flags, ps, [])
    {
      ghost var rest := Choose(flags[k..], ps, taken);
      assert flags[k..][1..] == flags[k + 1..];
      chosen, taken := PickFor(flags[k], ps, chosen, taken);
      assert chosen + Choose(flags[k + 1..], ps, taken) == Choose(flags, ps, []);
      k := k + 1;
    }
    assert flags[k..] == [];
    assert chosen == Choose(flags, ps, []);
    var cs := Channels(chosen);
    var sorted := SortByPriority(cs);
    assert |sorted| == |multiset(sorted)| == |multiset(cs)| == |cs|;
    if |sorted| > 0 {
      return Ok(sorted);
    }
    return Err("no active provider found");
  }
}
