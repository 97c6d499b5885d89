/** The client CA chain read at boot (`boot_config.py`): the trusted CA and its ancestors along
    `caref`, which carries no foreign key and may loop. */
module BootChain {
  import opened Prelude
  import opened ParentWalk
  import MtlsBoot

  const MAX_CHAIN_DEPTH: nat := 64

  /** A row of `certificate_authorities`; an empty text stands for NULL as well. */
  datatype Row = Row(crt: string, descr: string, caref: string)

  /** The CA exists and its stored certificate decodes to PEM. `decode` stands for `_decoded_pem`. */
  predicate Good(cas: map<string, Row>, decode: string -> Option<string>, refid: string) {
    refid in cas && cas[refid].crt != "" && decode(cas[refid].crt).Some?
  }

  /** The parent relation as stored. */
  function Stored(cas: map<string, Row>): map<string, string> {
    map r | r in cas && cas[r].caref != "" && cas[r].caref in cas :: cas[r].caref
  }

  /** The parents the walk can serve. */
  function Servable(cas: map<string, Row>, decode: string -> Option<string>): map<string, string> {
    map r | r in cas && cas[r].caref != "" && Good(cas, decode, cas[r].caref) :: cas[r].caref
  }

  function Path(cas: map<string, Row>, decode: string -> Option<string>, refid: string): seq<string> {
    Walk(Servable(cas, decode), refid, MAX_CHAIN_DEPTH + 1)
  }

  /** Two PEM texts in one file, on lines of their own. */
  function Glue(chain: string, pem: string): (r: string)
    ensures chain <= r && |r| <= |chain| + 1 + |pem|
    ensures |r| > |pem| && r[|r| - |pem|..] == pem && r[|r| - |pem| - 1] == '\n'
  {
    if chain == [] || chain[|chain| - 1] != '\n' then chain + "\n" + pem else chain + pem
  }

  predicate AllGood(cas: map<string, Row>, decode: string -> Option<string>, path: seq<string>) {
    forall i | 0 <= i < |path| :: Good(cas, decode, path[i])
  }

  /** The certificates of `path`, in order. */
  function Bundle(cas: map<string, Row>, decode: string -> Option<string>, path: seq<string>): string
    requires path != [] && AllGood(cas, decode, path)
  {
    var pem := decode(cas[path[|path| - 1]].crt).value;
    if |path| == 1 then pem else Glue(Bundle(cas, decode, path[..|path| - 1]), pem)
  }

  lemma BundleSnoc(cas: map<string, Row>, decode: string -> Option<string>, path: seq<string>, up: string)
    requires path != [] && AllGood(cas, decode, path) && Good(cas, decode, up)
    ensures AllGood(cas, decode, path + [up])
    ensures Bundle(cas, decode, path + [up]) == Glue(Bundle(cas, decode, path), decode(cas[up].crt).value)
  {
  }

  lemma PathIsGood(cas: map<string, Row>, decode: string -> Option<string>, refid: string)
    requires Good(cas, decode, refid)
    ensures Path(cas, decode, refid) != []
    ensures AllGood(cas, decode, Path(cas, decode, refid))
  {
    var parent, w := Servable(cas, decode), Path(cas, decode, refid);
    WalkShape(parent, refid, MAX_CHAIN_DEPTH + 1);
    forall i | 0 <= i < |w| ensures Good(cas, decode, w[i]) {
      if i > 0 {
        assert w[i] == parent[w[i - 1]];
      }
    }
  }

  /** One turn of the walk: on to a parent that can be served and was not yet seen, or no further. */
  lemma WalkTurn(cas: map<string, Row>, decode: string -> Option<string>, path: seq<string>, up: string)
    requires path != [] && path[|path| - 1] in cas && cas[path[|path| - 1]].caref == up
    ensures var all := Continue(Servable(cas, decode), path, MAX_CHAIN_DEPTH + 1);
            all == if |path| > MAX_CHAIN_DEPTH || up == "" || up in path || !Good(cas, decode, up) then path
                   else Continue(Servable(cas, decode), path + [up], MAX_CHAIN_DEPTH + 1)
  {
  }

  method ClientCaChain(cas: map<string, Row>, decode: string -> Option<string>, refid: string)
    returns (chain: Option<string>, name: string)
    ensures chain.Some? <==> Good(cas, decode, refid)
    ensures Good(cas, decode, refid) ==>
      (PathIsGood(cas, decode, refid); chain == Some(Bundle(cas, decode, Path(cas, decode, refid))))
    ensures Good(cas, decode, refid) ==> name == if cas[refid].descr == "" then refid else cas[refid].descr
  {
    if refid !in cas || cas[refid].crt == "" {
      return None, "";
    }
    var first := decode(cas[refid].crt);
    if first.None? {
      return None, "";
    }
    ghost var path := [refid];
    PathIsGood(cas, decode, refid);
    var text := first.value;
    var seen := {refid};
    var current := refid;
    while |seen| <= MAX_CHAIN_DEPTH
      invariant path != [] && AllGood(cas, decode, path)
      invariant seen == Elems(path) && |seen| == |path| && current == path[|path| - 1]
      invariant |path| <= MAX_CHAIN_DEPTH + 1
      invariant Continue(Servable(cas, decode), path, MAX_CHAIN_DEPTH + 1) == Path(cas, decode, refid)
      invariant text == Bundle(cas, decode, path)
      decreases MAX_CHAIN_DEPTH + 1 - |path|
    {
      var up := cas[current].caref;
      WalkTurn(cas, decode, path, up);
      if up == "" || up in seen {
        break;
      }
      if up !in cas || cas[up].crt == "" {
        break;
      }
      var pem := decode(cas[up].crt);
      if pem.None? {
        break;
      }
      ElemsSnoc(path, up);
      seen := seen + {up};
      text := Glue(text, pem.value);
      BundleSnoc(cas, decode, path, up);
      path := path + [up];
      current := up;
    }
    return Some(text), if cas[refid].descr == "" then refid else cas[refid].descr;
  }

  /** For every stored relation, cycles included: the chain is the trusted CA followed by distinct
      successive parents, at most 65 certificates. */
  lemma ChainShape(cas: map<string, Row>, decode: string -> Option<string>, refid: string)
    requires Good(cas, decode, refid)
    ensures var path := Path(cas, decode, refid);
            && IsPath(Stored(cas), refid, path) && NoDup(path) && |path| <= MAX_CHAIN_DEPTH + 1
            && AllGood(cas, decode, path)
            && (|path| <= MAX_CHAIN_DEPTH ==>
                  var up := cas[path[|path| - 1]].caref;
                  up == "" || up in path || !Good(cas, decode, up))
  {
    WalkShape(Servable(cas, decode), refid, MAX_CHAIN_DEPTH + 1);
    PathIsGood(cas, decode, refid);
  }

  lemma {:induction false} SameAncestors(cas: map<string, Row>, decode: string -> Option<string>, a: string, n: nat)
    requires forall b | b in Reach(Stored(cas), a) :: Good(cas, decode, b)
    ensures Nth(Servable(cas, decode), a, n) == Nth(Stored(cas), a, n)
  {
    if n > 0 {
      SameAncestors(cas, decode, a, n - 1);
      var up := Nth(Stored(cas), a, n);
      if up.Some? {
        NthInRange(Stored(cas), a, n, up.value);
      }
    }
  }

  lemma SameReach(cas: map<string, Row>, decode: string -> Option<string>, a: string)
    requires forall b | b in Reach(Stored(cas), a) :: Good(cas, decode, b)
    ensures Reach(Servable(cas, decode), a) <= Reach(Stored(cas), a)
  {
    forall b | b in Reach(Servable(cas, decode), a) ensures b in Reach(Stored(cas), a) {
      var n: nat :| Nth(Servable(cas, decode), a, n) == Some(b);
      SameAncestors(cas, decode, a, n);
      NthInRange(Stored(cas), a, n, b);
    }
  }

  /** When the stored path ends, every certificate on it decodes and it has at most 64 ancestors,
      the chain is the whole path up to the root. */
  lemma FullChain(cas: map<string, Row>, decode: string -> Option<string>, refid: string, end: nat)
    requires refid in cas && Nth(Stored(cas), refid, end) == None
    requires forall b | b in Reach(Stored(cas), refid) :: Good(cas, decode, b)
    requires |Reach(Stored(cas), refid)| <= MAX_CHAIN_DEPTH + 1
    ensures var path := Path(cas, decode, refid);
            && (forall i | 0 <= i < |path| :: Nth(Stored(cas), refid, i) == Some(path[i]))
            && Nth(Stored(cas), refid, |path|) == None
  {
    var parent, path := Servable(cas, decode), Path(cas, decode, refid);
    SameReach(cas, decode, refid);
    SubsetSize(Reach(parent, refid), Reach(Stored(cas), refid));
    SameAncestors(cas, decode, refid, end);
    WalkIsFullPath(parent, refid, MAX_CHAIN_DEPTH + 1, end);
    forall i | 0 <= i <= |path| ensures Nth(parent, refid, i) == Nth(Stored(cas), refid, i) {
      SameAncestors(cas, decode, refid, i);
    }
  }

  ghost predicate Ends(cas: map<string, Row>, refid: string) {
    exists end: nat :: Nth(Stored(cas), refid, end) == None
  }

  /** `path` is the trusted CA and all its stored ancestors up to the root, in order. */
  ghost predicate Whole(cas: map<string, Row>, refid: string, path: seq<string>) {
    && (forall i | 0 <= i < |path| :: Nth(Stored(cas), refid, i) == Some(path[i]))
    && Nth(Stored(cas), refid, |path|) == None
  }

  /** For a usable trusted CA the whole stored path is served, if and only if it ends, is usable
      throughout and has at most 64 ancestors. */
  lemma FullChainIff(cas: map<string, Row>, decode: string -> Option<string>, refid: string)
    requires Good(cas, decode, refid)
    ensures Whole(cas, refid, Path(cas, decode, refid))
       <==> && Ends(cas, refid)
            && (forall b | b in Reach(Stored(cas), refid) :: Good(cas, decode, b))
            && |Reach(Stored(cas), refid)| <= MAX_CHAIN_DEPTH + 1
  {
    var path := Path(cas, decode, refid);
    if Whole(cas, refid, path) {
      ChainShape(cas, decode, refid);
      assert Nth(Stored(cas), refid, |path| - 1) == Some(path[|path| - 1]);
      ClosedPathIsReach(Stored(cas), refid, path);
      NoDupSize(path);
    } else if end: nat :| Nth(Stored(cas), refid, end) == None {
      if (forall b | b in Reach(Stored(cas), refid) :: Good(cas, decode, b))
         && |Reach(Stored(cas), refid)| <= MAX_CHAIN_DEPTH + 1 {
        FullChain(cas, decode, refid, end);
      }
    }
  }

  /** `mtls_client_ca`: the settings a start reads. */
  method MtlsClientCa(config: map<string, string>, cas: map<string, Row>, decode: string -> Option<string>)
    returns (settings: MtlsBoot.Settings)
    ensures settings.On? <==>
              && "mtls_enabled" in config && config["mtls_enabled"] == "true"
              && "mtls_trusted_ca_id" in config && config["mtls_trusted_ca_id"] != ""
              && Good(cas, decode, config["mtls_trusted_ca_id"])
    ensures settings.On? ==>
              (PathIsGood(cas, decode, config["mtls_trusted_ca_id"]);
               settings.chain == Bundle(cas, decode, Path(cas, decode, config["mtls_trusted_ca_id"])))
    ensures settings.On? ==>
              (settings.required <==> "mtls_required" in config && config["mtls_required"] == "true")
  {
    if "mtls_enabled" !in config || config["mtls_enabled"] != "true" {
      return MtlsBoot.Off;
    }
    if "mtls_trusted_ca_id" !in config || config["mtls_trusted_ca_id"] == "" {
      return MtlsBoot.Off;
    }
    var chain, name := ClientCaChain(cas, decode, config["mtls_trusted_ca_id"]);
    if chain.None? {
      return MtlsBoot.Off;
    }
    return MtlsBoot.On(chain.value, "mtls_required" in config && config["mtls_required"] == "true");
  }
}
