/** Which orders startup takes for its own: exactly those the venue lists as managed, tagged with this market's
    name and their own side, and resting under terms this process would sign. */
module Ownership {
  import opened Market
  import opened Pairing
  import opened Decision
  import opened Reconcile
  import opened Startup
  import Decimals
  import Nonces

  // ----- splitting an id -----

  function Join(parts: seq<string>, sep: char): string
    requires parts != []
  {
    if |parts| == 1 then parts[0] else parts[0] + [sep] + Join(parts[1..], sep)
  }

  lemma JoinAfter(part: string, rest: seq<string>, sep: char)
    requires rest != []
    ensures Join([part] + rest, sep) == part + [sep] + Join(rest, sep)
  {
    assert ([part] + rest)[1..] == rest;
  }

  lemma JoinLonger(c: char, parts: seq<string>, sep: char)
    requires parts != []
    ensures Join([[c] + parts[0]] + parts[1..], sep) == [c] + Join(parts, sep)
  {
    var longer := [[c] + parts[0]] + parts[1..];
    assert longer[1..] == parts[1..];
    if |parts| > 1 {
      var tail := Join(parts[1..], sep);
      assert ([c] + parts[0]) + [sep] + tail == [c] + (parts[0] + [sep] + tail);
    }
  }

  /** The parts are the text between the separators. */
  lemma {:induction false} SplitJoins(s: string, sep: char)
    ensures Join(Split(s, sep), sep) == s
  {
    hide Join;
    if s == "" {
      JoinOne(s, sep);
    } else {
      var rest := Split(s[1..], sep);
      SplitJoins(s[1..], sep);
      if s[0] == sep {
        JoinAfter("", rest, sep);
        assert "" + [sep] + s[1..] == s;
      } else {
        JoinLonger(s[0], rest, sep);
        assert [s[0]] + s[1..] == s;
      }
    }
  }

  lemma JoinOne(s: string, sep: char)
    ensures Join([s], sep) == s
  {
  }

  lemma {:induction false} PartsHoldNoSeparator(s: string, sep: char)
    ensures forall i :: 0 <= i < |Split(s, sep)| ==> sep !in Split(s, sep)[i]
  {
    if s != "" {
      PartsHoldNoSeparator(s[1..], sep);
    }
  }

  lemma {:induction false} SplitWhole(s: string, sep: char)
    requires sep !in s
    ensures Split(s, sep) == [s]
  {
    if s != "" {
      SplitWhole(s[1..], sep);
      assert [s[0]] + s[1..] == s;
    }
  }

  lemma {:induction false} SplitFirst(part: string, rest: string, sep: char)
    requires sep !in part
    ensures Split(part + [sep] + rest, sep) == [part] + Split(rest, sep)
  {
    var s := part + [sep] + rest;
    if part == "" {
      assert s[1..] == rest;
    } else {
      assert s[1..] == part[1..] + [sep] + rest;
      SplitFirst(part[1..], rest, sep);
      var tail := Split(s[1..], sep);
      assert [s[0]] + part[1..] == part;
      assert tail[1..] == Split(rest, sep);
    }
  }

  // ----- whose it is -----

  /** The id a bot of the given market name gives an order of this side. */
  predicate IDOf(id: string, name: string, side: Side, tail: string) {
    id == "mm:" + name + ":" + (if side == Buy then "buy" else "sell") + ":" + tail && ':' !in name && ':' !in tail
  }

  ghost predicate TaggedOurs(env: Env, o: Order) {
    exists name, tail :: name in env.names && IDOf(o.id, name, o.side, tail)
  }

  /** Terms this process would sign now; a protected order's expiry is not judged. */
  predicate TermsAreOurs(env: Env, o: Order) {
    TermsHold(env.desk.cfg, o.(expiry := if Protected(env.desk.cfg, o.id) then 0 else o.expiry), Required(env.desk, o.price), env.now)
  }

  lemma SplitFour(name: string, tag: string, tail: string)
    requires ':' !in name && ':' !in tag && ':' !in tail
    ensures Split("mm" + ":" + (name + ":" + (tag + ":" + tail)), ':') == ["mm", name, tag, tail]
  {
    hide Split;
    var last := tag + ":" + tail;
    var rest := name + ":" + last;
    SplitWhole(tail, ':');
    SplitFirst(tag, tail, ':');
    assert Split(last, ':') == [tag, tail];
    SplitFirst(name, last, ':');
    assert Split(rest, ':') == [name, tag, tail];
    SplitFirst("mm", rest, ':');
  }

  lemma IDSplits(id: string, name: string, side: Side, tail: string)
    requires IDOf(id, name, side, tail)
    ensures Split(id, ':') == ["mm", name, SideTag(side), tail] && "mm:" + name + ":" <= id
  {
    hide Split;
    SplitFour(name, SideTag(side), tail);
    assert id == "mm" + ":" + (name + ":" + (SideTag(side) + ":" + tail));
  }

  lemma FourPartsAreAnID(id: string, side: Side)
    requires var parts := Split(id, ':'); |parts| == 4 && parts[0] == "mm" && parts[2] == SideTag(side)
    ensures var parts := Split(id, ':'); IDOf(id, parts[1], side, parts[3])
  {
    SplitJoins(id, ':');
    PartsHoldNoSeparator(id, ':');
    var parts := Split(id, ':');
    assert parts[1..][1..] == parts[2..] && parts[2..][1..] == parts[3..];
    assert Join(parts[3..], ':') == parts[3];
    assert Join(parts[2..], ':') == parts[2] + ":" + parts[3];
    assert Join(parts[1..], ':') == parts[1] + ":" + Join(parts[2..], ':');
    var tag := parts[2] + ":" + parts[3];
    assert "mm:" + parts[1] + ":" + tag == "mm" + ":" + (parts[1] + ":" + tag);
  }

  lemma TaggedStartsWithTheTag(env: Env, id: string)
    requires Tagged(env, id)
    ensures Split(id, ':')[0] == "mm"
  {
    var i :| 0 <= i < |env.names| && "mm:" + env.names[i] + ":" <= id;
    var head := "mm:" + env.names[i] + ":";
    assert id[..|head|] == head;
    assert id[..3] == "mm:";
    assert id == "mm" + ":" + id[3..];
    SplitFirst("mm", id[3..], ':');
  }

  /** An order is acceptable at startup if and only if the venue lists it as managed, its id carries one of the
      market's names and its own side, and its terms are this process's. */
  lemma AcceptableExactlyWhenOurs(env: Env, o: Order)
    ensures RejectReason(env, o).None? <==> o.id in env.managed && TaggedOurs(env, o) && TermsAreOurs(env, o)
  {
    hide Split, Required, Protected, Tagged, IDOf;
    if RejectReason(env, o).None? {
      var parts := Split(o.id, ':');
      TaggedStartsWithTheTag(env, o.id);
      FourPartsAreAnID(o.id, o.side);
      assert IDOf(o.id, parts[1], o.side, parts[3]);
    } else if TaggedOurs(env, o) {
      var name, tail :| name in env.names && IDOf(o.id, name, o.side, tail);
      IDSplits(o.id, name, o.side, tail);
      NamedIsTagged(env, o.id, name);
    }
  }

  lemma NamedIsTagged(env: Env, id: string, name: string)
    requires name in env.names && "mm:" + name + ":" <= id
    ensures Tagged(env, id)
  {
    var i :| 0 <= i < |env.names| && env.names[i] == name;
  }

  // ----- what that means for adoption -----

  /** An adopted order is managed, this market's, of the side it is adopted for, at its target and under terms
      this process would sign; an order the venue does not list as managed never is. */
  lemma AdoptedIsOurs(env: Env, orders: seq<Order>, bests: Bests, halted: bool, o: Order)
    requires IsAdopted(env, orders, bests, halted, o)
    ensures o in orders && o.id in env.managed && TaggedOurs(env, o) && TermsAreOurs(env, o)
    ensures AtTarget(env, o, TargetFor(bests, o.side))
  {
    hide RejectReason, TaggedOurs, TermsAreOurs, SizeMismatched, PriceDrift;
    AdoptedIsTheOnlyOne(env, orders, bests, o, o);
    AcceptableExactlyWhenOurs(env, o);
  }

  /** Within the stale threshold of the target, and of a size the venue cannot tell from it. */
  predicate AtTarget(env: Env, o: Order, target: Option<Quote>) {
    target.Some? && Closer(PriceDrift(o.price, target.value.price), Bps(env.desk.cfg.staleBPS))
    && !SizeMismatched(o.size, target.value.size, env.desk.cfg, env.desk.quantum)
  }

  lemma {:induction false} CandidatesDistinct(env: Env, orders: seq<Order>, side: Side)
    requires DistinctIDs(orders)
    ensures DistinctIDs(Candidates(env, orders, side))
  {
    hide RejectReason;
    if orders != [] {
      var init, last := orders[..|orders| - 1], orders[|orders| - 1];
      CandidatesDistinct(env, init, side);
      var c := Candidates(env, init, side);
      forall i | 0 <= i < |c| ensures c[i].id != last.id {
        CandidatesAre(env, init, side, c[i]);
        assert c[i] in init;
      }
    }
  }

  /** A bot that comes back to its own ladder keeps it: an order with an id this bot builds, managed, under its
      terms and at the target is adopted when no other managed order rests on its side. */
  lemma OwnOrderIsAdopted(env: Env, orders: seq<Order>, bests: Bests, o: Order, name: string, nonce: nat)
    requires DistinctIDs(orders) && o in orders && o.id in env.managed && TermsAreOurs(env, o)
    requires name in env.names && ':' !in name && o.id == Nonces.BuildIdentity(name, o.side, nonce).orderID
    requires AtTarget(env, o, TargetFor(bests, o.side))
    requires forall x :: x in orders && x.side == o.side && x.id in env.managed ==> x == o
    ensures IsAdopted(env, orders, bests, false, o)
  {
    hide RejectReason, TermsAreOurs, SizeMismatched, PriceDrift, Candidates;
    BuiltIDIsTagged(env, o, name, nonce);
    AcceptableExactlyWhenOurs(env, o);
    var c := Candidates(env, orders, o.side);
    CandidatesDistinct(env, orders, o.side);
    CandidatesAre(env, orders, o.side, o);
    forall i | 0 <= i < |c| ensures c[i] == o {
      CandidatesAre(env, orders, o.side, c[i]);
      AcceptableExactlyWhenOurs(env, c[i]);
    }
    assert |c| > 1 ==> c[0].id != c[1].id;
    assert c == [o];
  }

  lemma BuiltIDIsTagged(env: Env, o: Order, name: string, nonce: nat)
    requires name in env.names && ':' !in name && o.id == Nonces.BuildIdentity(name, o.side, nonce).orderID
    ensures TaggedOurs(env, o)
  {
    var digits := Decimals.Digits(nonce);
    assert Decimals.AllDigits(digits);
    assert IDOf(o.id, name, o.side, digits);
  }
}
