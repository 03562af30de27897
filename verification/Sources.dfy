/** Ingresses and services as endpoint sources: which address they offer and when they are accepted. */
module Sources {
  import opened Api
  import opened Selection

  datatype Ingress = Ingress(ip: string, hostname: string)

  datatype Source =
    | IngressSource(status: seq<Ingress>, rules: seq<string>)
    | ServiceSource(kind: string, status: seq<Ingress>)

  const LOAD_BALANCER := "LoadBalancer"

  datatype Address = Address(ip: string, cname: string) {
    predicate IsEmpty() {
      ip == "" && cname == ""
    }
  }

  /** The verdict on a source: accepted, refused for now, or refused. */
  datatype Verdict = Accepted | NotYet | Refused

  // ---- specifications ----

  /** The last non-empty ip and the last non-empty host name, each on its own. */
  function StatusAddress(status: seq<Ingress>): Address {
    if status == [] then Address("", "")
    else
      var a, l := StatusAddress(status[..|status| - 1]), status[|status| - 1];
      Address(if l.ip != "" then l.ip else a.ip, if l.hostname != "" then l.hostname else a.cname)
  }

  predicate Usable(l: Ingress) {
    l.ip != "" || l.hostname != ""
  }

  predicate OtherHost(host: string, dnsName: string) {
    host != "" && host != dnsName
  }

  /** The first host rule that is not the load balancer's own name. */
  function Fallback(rules: seq<string>, dnsName: string): string {
    if rules == [] then ""
    else if OtherHost(rules[0], dnsName) then rules[0]
    else Fallback(rules[1..], dnsName)
  }

  function Offered(src: Source, dnsName: string): Address {
    var a := StatusAddress(src.status);
    if src.IngressSource? && a.IsEmpty() then Address("", Fallback(src.rules, dnsName)) else a
  }

  lemma {:induction false} StatusAddressEmpty(status: seq<Ingress>)
    ensures StatusAddress(status).IsEmpty() <==> forall l :: l in status ==> !Usable(l)
  {
    if status != [] {
      var rest, last := status[..|status| - 1], status[|status| - 1];
      StatusAddressEmpty(rest);
      assert status == rest + [last];
      assert last in status;
      assert forall l :: l in status <==> l in rest || l == last;
    }
  }

  lemma {:induction false} FallbackRule(rules: seq<string>, dnsName: string)
    ensures Fallback(rules, dnsName) == "" <==> forall h :: h in rules ==> !OtherHost(h, dnsName)
    ensures Fallback(rules, dnsName) != "" ==>
              Fallback(rules, dnsName) in rules && OtherHost(Fallback(rules, dnsName), dnsName)
  {
    if rules != [] {
      FallbackRule(rules[1..], dnsName);
      assert rules == [rules[0]] + rules[1..];
    }
  }

  lemma {:induction false} LastIp(status: seq<Ingress>)
    ensures StatusAddress(status).ip != "" ==>
              exists i :: 0 <= i < |status| && status[i].ip == StatusAddress(status).ip
                          && forall j :: i < j < |status| ==> status[j].ip == ""
    ensures StatusAddress(status).ip == "" <==> forall i :: 0 <= i < |status| ==> status[i].ip == ""
  {
    if status != [] {
      var rest, last := status[..|status| - 1], |status| - 1;
      LastIp(rest);
      assert forall i :: 0 <= i < last ==> status[i] == rest[i];
      if status[last].ip != "" {
        assert status[last].ip == StatusAddress(status).ip;
      } else if StatusAddress(rest).ip != "" {
        var i :| 0 <= i < last && rest[i].ip == StatusAddress(rest).ip
                 && forall j :: i < j < last ==> rest[j].ip == "";
        assert status[i].ip == StatusAddress(status).ip;
      }
    }
  }

  lemma {:induction false} LastHostname(status: seq<Ingress>)
    ensures StatusAddress(status).cname != "" ==>
              exists i :: 0 <= i < |status| && status[i].hostname == StatusAddress(status).cname
                          && forall j :: i < j < |status| ==> status[j].hostname == ""
    ensures StatusAddress(status).cname == "" <==> forall i :: 0 <= i < |status| ==> status[i].hostname == ""
  {
    if status != [] {
      var rest, last := status[..|status| - 1], |status| - 1;
      LastHostname(rest);
      assert forall i :: 0 <= i < last ==> status[i] == rest[i];
      if status[last].hostname != "" {
        assert status[last].hostname == StatusAddress(status).cname;
      } else if StatusAddress(rest).cname != "" {
        var i :| 0 <= i < last && rest[i].hostname == StatusAddress(rest).cname
                 && forall j :: i < j < last ==> rest[j].hostname == "";
        assert status[i].hostname == StatusAddress(status).cname;
      }
    }
  }

  /** By position: each part is the last non-empty one. */
  lemma LastAddress(status: seq<Ingress>)
    ensures StatusAddress(status).ip != "" ==>
              exists i :: 0 <= i < |status| && status[i].ip == StatusAddress(status).ip
                          && forall j :: i < j < |status| ==> status[j].ip == ""
    ensures StatusAddress(status).ip == "" <==> forall i :: 0 <= i < |status| ==> status[i].ip == ""
    ensures StatusAddress(status).cname != "" ==>
              exists i :: 0 <= i < |status| && status[i].hostname == StatusAddress(status).cname
                          && forall j :: i < j < |status| ==> status[j].hostname == ""
    ensures StatusAddress(status).cname == "" <==> forall i :: 0 <= i < |status| ==> status[i].hostname == ""
  {
    LastIp(status);
    LastHostname(status);
  }

  /** By position: the fallback is the first suitable rule. */
  lemma {:induction false} FirstFallback(rules: seq<string>, dnsName: string)
    requires Fallback(rules, dnsName) != ""
    ensures exists i :: 0 <= i < |rules| && rules[i] == Fallback(rules, dnsName)
                        && forall j :: 0 <= j < i ==> !OtherHost(rules[j], dnsName)
  {
    if !OtherHost(rules[0], dnsName) {
      FirstFallback(rules[1..], dnsName);
      var i :| 0 <= i < |rules[1..]| && rules[1..][i] == Fallback(rules, dnsName)
               && forall j :: 0 <= j < i ==> !OtherHost(rules[1..][j], dnsName);
      assert rules[i + 1] == Fallback(rules, dnsName);
      forall j | 0 <= j < i + 1 ensures !OtherHost(rules[j], dnsName) {
        assert j > 0 ==> rules[j] == rules[1..][j - 1];
      }
    }
  }

  /** The offered address by position. A status with any entry in use offers its last ip and its last host name;
      otherwise a service offers nothing, and an ingress its first host rule of another name. */
  ghost predicate OfferedByPosition(src: Source, dnsName: string, ip: string, cname: string) {
    if exists l :: l in src.status && (l.ip != "" || l.hostname != "") then
      && (if forall l :: l in src.status ==> l.ip == "" then ip == ""
          else exists i :: 0 <= i < |src.status| && src.status[i].ip == ip && ip != ""
                           && forall j :: i < j < |src.status| ==> src.status[j].ip == "")
      && (if forall l :: l in src.status ==> l.hostname == "" then cname == ""
          else exists i :: 0 <= i < |src.status| && src.status[i].hostname == cname && cname != ""
                           && forall j :: i < j < |src.status| ==> src.status[j].hostname == "")
    else
      && ip == ""
      && (if src.ServiceSource? || forall h :: h in src.rules ==> h == "" || h == dnsName then cname == ""
          else exists i :: 0 <= i < |src.rules| && src.rules[i] == cname && cname != "" && cname != dnsName
                           && forall j :: 0 <= j < i ==> src.rules[j] == "" || src.rules[j] == dnsName)
  }

  lemma OfferedRule(src: Source, dnsName: string)
    ensures OfferedByPosition(src, dnsName, Offered(src, dnsName).ip, Offered(src, dnsName).cname)
  {
    StatusAddressEmpty(src.status);
    if StatusAddress(src.status).IsEmpty() {
      assert forall l :: l in src.status ==> !Usable(l);
      if src.IngressSource? {
        FallbackRule(src.rules, dnsName);
        if Fallback(src.rules, dnsName) != "" {
          FirstFallback(src.rules, dnsName);
        }
      }
    } else {
      assert exists l :: l in src.status && Usable(l);
      LastAddress(src.status);
    }
  }

  // ---- the loops ----

  method StatusLoop(status: seq<Ingress>) returns (ip: string, cname: string)
    ensures Address(ip, cname) == StatusAddress(status)
  {
    ip, cname := "", "";
    for i := 0 to |status|
      invariant Address(ip, cname) == StatusAddress(status[..i])
    {
      assert status[..i + 1][..i] == status[..i];
      if status[i].ip != "" {
        ip := status[i].ip;
      }
      if status[i].hostname != "" {
        cname := status[i].hostname;
      }
    }
    assert status[..|status|] == status;
  }

  method GetTargets(src: Source, dnsName: string) returns (ip: string, cname: string)
    ensures Address(ip, cname) == Offered(src, dnsName)
    ensures OfferedByPosition(src, dnsName, ip, cname)
  {
    OfferedRule(src, dnsName);
    ip, cname := StatusLoop(src.status);
    if src.IngressSource? && cname == "" && ip == "" {
      for i := 0 to |src.rules|
        invariant Fallback(src.rules, dnsName) == Fallback(src.rules[i..], dnsName)
      {
        assert src.rules[i..][1..] == src.rules[i + 1..];
        if src.rules[i] != "" && src.rules[i] != dnsName {
          cname := src.rules[i];
          return;
        }
      }
    }
  }

  /** Fails unless the service is of type LoadBalancer; otherwise looks for an assigned address. */
  method HasLoadBalancer(kind: string, status: seq<Ingress>) returns (ok: bool, failed: bool)
    ensures failed <==> kind != LOAD_BALANCER
    ensures ok <==> kind == LOAD_BALANCER && !StatusAddress(status).IsEmpty()
  {
    StatusAddressEmpty(status);
    if kind != LOAD_BALANCER {
      return false, true;
    }
    for i := 0 to |status|
      invariant forall l :: l in status[..i] ==> !Usable(l)
    {
      if status[i].ip != "" || status[i].hostname != "" {
        assert status[i] in status && Usable(status[i]);
        return true, false;
      }
    }
    return false, false;
  }

  /** What it takes to be accepted, stated without the loops. */
  ghost predicate Acceptable(src: Source, dnsName: string) {
    match src
    case IngressSource(status, rules) =>
      dnsName != "" && dnsName in rules
      && ((exists l :: l in status && Usable(l)) || (exists h :: h in rules && OtherHost(h, dnsName)))
    case ServiceSource(kind, status) =>
      kind == LOAD_BALANCER && exists l :: l in status && Usable(l)
  }

  method Validate(src: Source, dnsName: string) returns (verdict: Verdict)
    ensures verdict == Accepted <==> Acceptable(src, dnsName)
    ensures src.ServiceSource? ==>
              (verdict == Accepted <==>
                && src.kind == "LoadBalancer"
                && exists l :: l in src.status && (l.ip != "" || l.hostname != ""))
    ensures src.IngressSource? ==>
              (verdict == Accepted <==>
                && dnsName != "" && dnsName in src.rules
                && ((exists l :: l in src.status && (l.ip != "" || l.hostname != ""))
                    || exists h :: h in src.rules && h != "" && h != dnsName))
    ensures verdict == NotYet <==>
              && src.ServiceSource? && src.kind == "LoadBalancer"
              && forall l :: l in src.status ==> l.ip == "" && l.hostname == ""
  {
    StatusAddressEmpty(src.status);
    match src
    case IngressSource(status, rules) =>
      var dns := false;
      for i := 0 to |rules|
        invariant dns <==> dnsName != "" && dnsName in rules[..i]
      {
        if rules[i] != "" {
          if rules[i] == dnsName {
            dns := true;
          }
        }
      }
      if !dns {
        return Refused;
      }
      var ip, cname := GetTargets(src, dnsName);
      FallbackRule(rules, dnsName);
      if ip == "" && cname == "" {
        return Refused;
      }
      return Accepted;
    case ServiceSource(kind, status) =>
      var ok, failed := HasLoadBalancer(kind, status);
      if failed {
        return Refused;
      }
      if !ok {
        return NotYet;
      }
      var ip, cname := GetTargets(src, dnsName);
      if ip == "" && cname == "" {
        return Refused;
      }
      return Accepted;
  }

  /** An accepted source offers an address, so the target built from its endpoint is valid on the DNS
      side; and when an ingress has to fall back on its rules it never offers the load balancer's own name. */
  lemma AcceptedIsUsable(src: Source, dnsName: string, dnsep: Option<EndpointRef>)
    requires Acceptable(src, dnsName)
    ensures Target(Offered(src, dnsName).cname, Offered(src, dnsName).ip, dnsep).IsValid()
    ensures StatusAddress(src.status).IsEmpty() ==>
              src.IngressSource? && Offered(src, dnsName).ip == "" && Offered(src, dnsName).cname != dnsName
  {
    StatusAddressEmpty(src.status);
    if src.IngressSource? {
      FallbackRule(src.rules, dnsName);
    }
  }
}
