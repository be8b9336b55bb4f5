/** The registry of agent names: one name a peer, one peer a name, names compared without case
    (core/agent_name_registry.py). */
module NameRegistry {
  import opened Wrappers
  import Text

  /** A row of `agent_names`, whose `peer_id` and `canonical_name` columns are UNIQUE. */
  datatype NameRow = NameRow(peer: string, display: string, canonical: string)

  const MIN_NAME_LENGTH := 3
  const MAX_NAME_LENGTH := 32

  predicate NameChar(c: char) {
    'a' <= c <= 'z' || 'A' <= c <= 'Z' || '0' <= c <= '9' || c == '_' || c == '-'
  }

  /** `validate_agent_name` */
  predicate ValidName(name: string) {
    var stripped := Text.Strip(name);
    MIN_NAME_LENGTH <= |stripped| <= MAX_NAME_LENGTH && forall i :: 0 <= i < |stripped| ==> NameChar(stripped[i])
  }

  /** `_normalize`, over the given `str.lower`. */
  function Normalize(lower: string -> string, name: string): string {
    lower(Text.Strip(name))
  }

  function ByPeer(rows: seq<NameRow>, peer: string): Option<NameRow> {
    if rows == [] then None else if rows[0].peer == peer then Some(rows[0]) else ByPeer(rows[1..], peer)
  }

  function ByCanonical(rows: seq<NameRow>, canonical: string): Option<NameRow> {
    if rows == [] then None else if rows[0].canonical == canonical then Some(rows[0]) else ByCanonical(rows[1..], canonical)
  }

  function Renamed(rows: seq<NameRow>, peer: string, display: string, canonical: string): seq<NameRow> {
    seq(|rows|, i requires 0 <= i < |rows| => if rows[i].peer == peer then NameRow(peer, display, canonical) else rows[i])
  }

  function WithoutPeer(rows: seq<NameRow>, peer: string): seq<NameRow> {
    if rows == [] then []
    else if rows[0].peer == peer then WithoutPeer(rows[1..], peer)
    else [rows[0]] + WithoutPeer(rows[1..], peer)
  }

  datatype Change = Claim(peer: string, name: string) | Reassign(peer: string, name: string) | Release(peer: string)

  predicate ClaimAllowed(lower: string -> string, rows: seq<NameRow>, peer: string, name: string) {
    ValidName(name) && ByPeer(rows, peer) == None && ByCanonical(rows, Normalize(lower, name)) == None
  }

  predicate RenameAllowed(lower: string -> string, rows: seq<NameRow>, peer: string, name: string) {
    var taken := ByCanonical(rows, Normalize(lower, name));
    ValidName(name) && ByPeer(rows, peer).Some? && (taken == None || taken.value.peer == peer)
  }

  predicate Allowed(lower: string -> string, rows: seq<NameRow>, c: Change) {
    match c
    case Claim(peer, name) => ClaimAllowed(lower, rows, peer, name)
    case Reassign(peer, name) => ClaimAllowed(lower, rows, peer, name) || RenameAllowed(lower, rows, peer, name)
    case Release(peer) => ByPeer(rows, peer).Some?
  }

  /** The table after a change; a refused change leaves it as it is. */
  function After(lower: string -> string, rows: seq<NameRow>, c: Change): seq<NameRow> {
    if !Allowed(lower, rows, c) then rows
    else match c
      case Claim(peer, name) => rows + [NameRow(peer, Text.Strip(name), Normalize(lower, name))]
      case Reassign(peer, name) =>
        if ByPeer(rows, peer) == None then rows + [NameRow(peer, Text.Strip(name), Normalize(lower, name))]
        else Renamed(rows, peer, Text.Strip(name), Normalize(lower, name))
      case Release(peer) => WithoutPeer(rows, peer)
  }

  class Registry {
    const lower: string -> string
    var rows: seq<NameRow>

    constructor (lower: string -> string)
      ensures this.lower == lower && rows == []
    {
      this.lower := lower;
      rows := [];
    }

    method ClaimName(peer: string, name: string) returns (ok: bool)
      modifies this`rows
      ensures ok == Allowed(lower, old(rows), Claim(peer, name)) && rows == After(lower, old(rows), Claim(peer, name))
    {
      if !ValidName(name) {
        return false;
      }
      var canonical, display := Normalize(lower, name), Text.Strip(name);
      if ByPeer(rows, peer).Some? {
        return false;
      }
      if ByCanonical(rows, canonical).Some? {
        return false;
      }
      rows := rows + [NameRow(peer, display, canonical)];
      return true;
    }

    method ReassignName(peer: string, name: string) returns (ok: bool)
      modifies this`rows
      ensures ok == Allowed(lower, old(rows), Reassign(peer, name)) && rows == After(lower, old(rows), Reassign(peer, name))
    {
      if !ValidName(name) {
        return false;
      }
      var canonical, display := Normalize(lower, name), Text.Strip(name);
      Text.StripTwice(name);
      if ByPeer(rows, peer) == None {
        ok := ClaimName(peer, display);
        return;
      }
      var taken := ByCanonical(rows, canonical);
      if taken.Some? && taken.value.peer != peer {
        return false;
      }
      rows := Renamed(rows, peer, display, canonical);
      return true;
    }

    method ReleaseName(peer: string) returns (ok: bool)
      modifies this`rows
      ensures ok == Allowed(lower, old(rows), Release(peer)) && rows == After(lower, old(rows), Release(peer))
    {
      if ByPeer(rows, peer) == None {
        return false;
      }
      rows := WithoutPeer(rows, peer);
      return true;
    }
  }

  /** `get_agent_name` */
  function GetAgentName(rows: seq<NameRow>, peer: string): Option<string> {
    match ByPeer(rows, peer)
    case Some(row) => Some(row.display)
    case None => None
  }

  /** `get_peer_by_name` */
  function GetPeerByName(lower: string -> string, rows: seq<NameRow>, name: string): Option<string> {
    match ByCanonical(rows, Normalize(lower, name))
    case Some(row) => Some(row.peer)
    case None => None
  }

  // ----- every run -----

  ghost predicate OneToOne(rows: seq<NameRow>) {
    forall i, j :: 0 <= i < j < |rows| ==> rows[i].peer != rows[j].peer && rows[i].canonical != rows[j].canonical
  }

  ghost predicate WellNamed(lower: string -> string, rows: seq<NameRow>) {
    forall r :: r in rows ==> ValidName(r.display) && r.display == Text.Strip(r.display) && r.canonical == Normalize(lower, r.display)
  }

  function Run(lower: string -> string, changes: seq<Change>): seq<NameRow> {
    if changes == [] then [] else After(lower, Run(lower, changes[..|changes| - 1]), changes[|changes| - 1])
  }

  lemma {:induction false} ByPeerFinds(rows: seq<NameRow>, peer: string)
    ensures ByPeer(rows, peer).Some? ==> ByPeer(rows, peer).value in rows && ByPeer(rows, peer).value.peer == peer
    ensures ByPeer(rows, peer) == None ==> forall r :: r in rows ==> r.peer != peer
  {
    if rows != [] {
      assert rows == [rows[0]] + rows[1..];
      ByPeerFinds(rows[1..], peer);
    }
  }

  lemma {:induction false} ByCanonicalFinds(rows: seq<NameRow>, canonical: string)
    ensures ByCanonical(rows, canonical).Some? ==>
              ByCanonical(rows, canonical).value in rows && ByCanonical(rows, canonical).value.canonical == canonical
    ensures ByCanonical(rows, canonical) == None ==> forall r :: r in rows ==> r.canonical != canonical
  {
    if rows != [] {
      assert rows == [rows[0]] + rows[1..];
      ByCanonicalFinds(rows[1..], canonical);
    }
  }

  lemma {:induction false} WithoutPeerMembers(rows: seq<NameRow>, peer: string)
    requires OneToOne(rows)
    ensures OneToOne(WithoutPeer(rows, peer))
    ensures forall r :: r in WithoutPeer(rows, peer) <==> r in rows && r.peer != peer
  {
    if rows != [] {
      var rest := rows[1..];
      WithoutPeerMembers(rest, peer);
      assert rows == [rows[0]] + rest;
      var kept := WithoutPeer(rest, peer);
      forall j | 0 <= j < |kept| ensures kept[j].peer != rows[0].peer && kept[j].canonical != rows[0].canonical {
        assert kept[j] in rest;
        var i :| 0 <= i < |rest| && rest[i] == kept[j];
        assert rows[i + 1] == kept[j];
      }
    }
  }

  lemma RenamedKeeps(lower: string -> string, rows: seq<NameRow>, peer: string, name: string)
    requires OneToOne(rows) && WellNamed(lower, rows) && RenameAllowed(lower, rows, peer, name)
    ensures var after := Renamed(rows, peer, Text.Strip(name), Normalize(lower, name)); OneToOne(after) && WellNamed(lower, after)
  {
    var canonical := Normalize(lower, name);
    var after := Renamed(rows, peer, Text.Strip(name), canonical);
    ByCanonicalFinds(rows, canonical);
    Text.StripTwice(name);
    forall i, j | 0 <= i < j < |rows| ensures after[i].peer != after[j].peer && after[i].canonical != after[j].canonical {
      OthersKeepTheirNames(rows, peer, canonical, i);
      OthersKeepTheirNames(rows, peer, canonical, j);
    }
  }

  /** Nobody but the renamed peer holds the new name. */
  lemma OthersKeepTheirNames(rows: seq<NameRow>, peer: string, canonical: string, i: nat)
    requires OneToOne(rows) && i < |rows|
    requires ByCanonical(rows, canonical) == None || ByCanonical(rows, canonical).value.peer == peer
    ensures rows[i].peer != peer ==> rows[i].canonical != canonical
  {
    ByCanonicalFinds(rows, canonical);
    assert rows[i] in rows;
    if ByCanonical(rows, canonical).Some? {
      var k :| 0 <= k < |rows| && rows[k] == ByCanonical(rows, canonical).value;
    }
  }

  lemma ClaimKeeps(lower: string -> string, rows: seq<NameRow>, peer: string, name: string)
    requires OneToOne(rows) && WellNamed(lower, rows) && ClaimAllowed(lower, rows, peer, name)
    ensures var after := rows + [NameRow(peer, Text.Strip(name), Normalize(lower, name))]; OneToOne(after) && WellNamed(lower, after)
  {
    ByPeerFinds(rows, peer);
    ByCanonicalFinds(rows, Normalize(lower, name));
    Text.StripTwice(name);
    assert forall i :: 0 <= i < |rows| ==> rows[i] in rows;
  }

  /** Over any run, peers and canonical names stay in one-to-one correspondence. */
  lemma {:induction false} RunKeepsOneToOne(lower: string -> string, changes: seq<Change>)
    ensures OneToOne(Run(lower, changes)) && WellNamed(lower, Run(lower, changes))
  {
    if changes != [] {
      var rows, c := Run(lower, changes[..|changes| - 1]), changes[|changes| - 1];
      RunKeepsOneToOne(lower, changes[..|changes| - 1]);
      if Allowed(lower, rows, c) {
        match c {
          case Claim(peer, name) => ClaimKeeps(lower, rows, peer, name);
          case Reassign(peer, name) =>
            if ByPeer(rows, peer) == None {
              ClaimKeeps(lower, rows, peer, name);
            } else {
              RenamedKeeps(lower, rows, peer, name);
            }
          case Release(peer) => WithoutPeerMembers(rows, peer);
        }
      }
    }
  }

  /** The two lookups are inverse: a named peer is found under its own name, and the peer found under a name has a name
      that differs from it at most in case and surrounding space. */
  lemma LookupsAreInverse(lower: string -> string, changes: seq<Change>, peer: string, name: string)
    ensures var rows := Run(lower, changes);
            && (GetAgentName(rows, peer).Some? ==> GetPeerByName(lower, rows, GetAgentName(rows, peer).value) == Some(peer))
            && (GetPeerByName(lower, rows, name) == Some(peer) ==>
                  GetAgentName(rows, peer).Some? && Normalize(lower, GetAgentName(rows, peer).value) == Normalize(lower, name))
  {
    var rows := Run(lower, changes);
    RunKeepsOneToOne(lower, changes);
    ByPeerFinds(rows, peer);
    if ByPeer(rows, peer).Some? {
      var row := ByPeer(rows, peer).value;
      ByCanonicalFinds(rows, row.canonical);
      SameCanonicalSameRow(rows, row, ByCanonical(rows, row.canonical).value);
    }
    ByCanonicalFinds(rows, Normalize(lower, name));
    if GetPeerByName(lower, rows, name) == Some(peer) {
      SamePeerSameRow(rows, ByCanonical(rows, Normalize(lower, name)).value, ByPeer(rows, peer).value);
    }
  }

  lemma SameCanonicalSameRow(rows: seq<NameRow>, a: NameRow, b: NameRow)
    requires OneToOne(rows) && a in rows && b in rows && a.canonical == b.canonical
    ensures a == b
  {
    var i :| 0 <= i < |rows| && rows[i] == a;
    var j :| 0 <= j < |rows| && rows[j] == b;
  }

  lemma SamePeerSameRow(rows: seq<NameRow>, a: NameRow, b: NameRow)
    requires OneToOne(rows) && a in rows && b in rows && a.peer == b.peer
    ensures a == b
  {
    var i :| 0 <= i < |rows| && rows[i] == a;
    var j :| 0 <= j < |rows| && rows[j] == b;
  }

  /** Two peers never hold names that differ only in case. */
  lemma CaseVariantsBelongToOnePeer(lower: string -> string, changes: seq<Change>, p: string, q: string)
    requires var rows := Run(lower, changes);
             GetAgentName(rows, p).Some? && GetAgentName(rows, q).Some?
             && lower(GetAgentName(rows, p).value) == lower(GetAgentName(rows, q).value)
    ensures p == q
  {
    var rows := Run(lower, changes);
    RunKeepsOneToOne(lower, changes);
    LookupsAreInverse(lower, changes, p, GetAgentName(rows, p).value);
    LookupsAreInverse(lower, changes, q, GetAgentName(rows, q).value);
    ByPeerFinds(rows, p);
    ByPeerFinds(rows, q);
  }

  // ----- what each change does, in lookups -----

  ghost predicate Sane(lower: string -> string, rows: seq<NameRow>) {
    OneToOne(rows) && WellNamed(lower, rows)
  }

  lemma FoundByPeer(rows: seq<NameRow>, r: NameRow)
    requires OneToOne(rows) && r in rows
    ensures ByPeer(rows, r.peer) == Some(r) && ByCanonical(rows, r.canonical) == Some(r)
  {
    ByPeerFinds(rows, r.peer);
    ByCanonicalFinds(rows, r.canonical);
    SamePeerSameRow(rows, r, ByPeer(rows, r.peer).value);
    SameCanonicalSameRow(rows, r, ByCanonical(rows, r.canonical).value);
  }

  /** A valid name has, but for surrounding space, 3 to 32 characters, each with the code of a plain letter, a digit, `_` or `-`. */
  lemma ValidNameIff(name: string)
    ensures ValidName(name) <==>
            3 <= |Text.Strip(name)| <= 32
            && forall c :: c in Text.Strip(name) ==> var n := c as int; 97 <= n <= 122 || 65 <= n <= 90 || 48 <= n <= 57 || n == 95 || n == 45
  {
    var stripped := Text.Strip(name);
    assert forall i :: 0 <= i < |stripped| ==> stripped[i] in stripped;
  }

  /** When a change is allowed: a claim by an unnamed peer for a valid name nobody bears; a reassignment to a valid name that
      nobody else bears; a release by a named peer. */
  lemma AllowedIff(lower: string -> string, rows: seq<NameRow>, peer: string, name: string)
    requires Sane(lower, rows)
    ensures Allowed(lower, rows, Claim(peer, name)) <==>
              ValidName(name) && GetAgentName(rows, peer) == None && GetPeerByName(lower, rows, name) == None
    ensures Allowed(lower, rows, Reassign(peer, name)) <==>
              ValidName(name) && (GetPeerByName(lower, rows, name) == None || GetPeerByName(lower, rows, name) == Some(peer))
    ensures Allowed(lower, rows, Release(peer)) <==> GetAgentName(rows, peer).Some?
  {
    ByCanonicalFinds(rows, Normalize(lower, name));
    ByPeerFinds(rows, peer);
  }

  lemma ClaimAdds(lower: string -> string, rows: seq<NameRow>, peer: string, name: string)
    requires Sane(lower, rows) && ClaimAllowed(lower, rows, peer, name)
    ensures var named := NameRow(peer, Text.Strip(name), Normalize(lower, name));
            OneToOne(rows + [named]) && named in rows + [named]
            && forall r: NameRow :: r.peer != peer ==> (r in rows <==> r in rows + [named])
  {
    ClaimKeeps(lower, rows, peer, name);
  }

  lemma RenameSets(lower: string -> string, rows: seq<NameRow>, peer: string, name: string)
    requires Sane(lower, rows) && RenameAllowed(lower, rows, peer, name) && ByPeer(rows, peer).Some?
    ensures var after := Renamed(rows, peer, Text.Strip(name), Normalize(lower, name));
            OneToOne(after) && NameRow(peer, Text.Strip(name), Normalize(lower, name)) in after
            && forall r: NameRow :: r.peer != peer ==> (r in rows <==> r in after)
  {
    var after := Renamed(rows, peer, Text.Strip(name), Normalize(lower, name));
    RenamedKeeps(lower, rows, peer, name);
    ByPeerFinds(rows, peer);
    var i :| 0 <= i < |rows| && rows[i] == ByPeer(rows, peer).value;
    assert after[i] == NameRow(peer, Text.Strip(name), Normalize(lower, name));
    forall r: NameRow | r.peer != peer ensures r in rows <==> r in after {
      if r in rows {
        var k :| 0 <= k < |rows| && rows[k] == r;
        assert after[k] == r;
      }
    }
  }

  /** After an allowed claim or reassignment the peer bears the name, and is found under it; every other peer's name stays. */
  lemma NamingSetsTheName(lower: string -> string, rows: seq<NameRow>, c: Change, other: string)
    requires Sane(lower, rows) && !c.Release? && Allowed(lower, rows, c) && other != c.peer
    ensures var after := After(lower, rows, c);
            && GetAgentName(after, c.peer) == Some(Text.Strip(c.name)) && GetPeerByName(lower, after, c.name) == Some(c.peer)
            && GetAgentName(after, other) == GetAgentName(rows, other)
  {
    var after := After(lower, rows, c);
    if ByPeer(rows, c.peer) == None {
      ClaimAdds(lower, rows, c.peer, c.name);
    } else {
      RenameSets(lower, rows, c.peer, c.name);
    }
    FoundByPeer(after, NameRow(c.peer, Text.Strip(c.name), Normalize(lower, c.name)));
    OtherStays(rows, after, other, c.peer);
  }

  /** A peer whose row is in both tables bears the same name in both, and so does one with a row in neither. */
  lemma OtherStays(rows: seq<NameRow>, after: seq<NameRow>, other: string, peer: string)
    requires OneToOne(rows) && OneToOne(after) && other != peer
    requires forall r: NameRow :: r.peer != peer ==> (r in rows <==> r in after)
    ensures ByPeer(after, other) == ByPeer(rows, other)
  {
    ByPeerFinds(rows, other);
    ByPeerFinds(after, other);
    if ByPeer(rows, other).Some? {
      FoundByPeer(after, ByPeer(rows, other).value);
    }
  }

  /** After an allowed release the peer bears no name, its old name is free, and every other peer's name stays. */
  lemma ReleaseFreesTheName(lower: string -> string, rows: seq<NameRow>, peer: string, other: string)
    requires Sane(lower, rows) && Allowed(lower, rows, Release(peer)) && other != peer
    ensures var after := After(lower, rows, Release(peer));
            && GetAgentName(after, peer) == None
            && GetPeerByName(lower, after, GetAgentName(rows, peer).value) == None
            && GetAgentName(after, other) == GetAgentName(rows, other)
  {
    var after := After(lower, rows, Release(peer));
    var row := ByPeer(rows, peer).value;
    ByPeerFinds(rows, peer);
    WithoutPeerMembers(rows, peer);
    ByPeerFinds(after, peer);
    ByCanonicalFinds(after, row.canonical);
    if ByCanonical(after, row.canonical).Some? {
      SameCanonicalSameRow(rows, row, ByCanonical(after, row.canonical).value);
    }
    OtherStays(rows, after, other, peer);
  }
}
