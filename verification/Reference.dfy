/** The annotation that names a load balancer. */
module Reference {
  import opened Api
  import opened SubObjectCache

  const ANNOTATION := "loadbalancer.gardener.cloud/dnsloadbalancer"

  /** `strings.Split`. */
  function Split(s: string, sep: char): (parts: seq<string>)
    ensures |parts| >= 1
  {
    if s == "" then [""]
    else
      var rest := Split(s[1..], sep);
      if s[0] == sep then [""] + rest else [[s[0]] + rest[0]] + rest[1..]
  }

  function Parse(namespace: string, value: string): Option<ObjectName> {
    var parts := Split(value, '/');
    if |parts| == 1 then Some(ObjectName(namespace, parts[0]))
    else if |parts| == 2 then Some(ObjectName(parts[0], parts[1]))
    else None
  }

  function Print(n: ObjectName): string {
    n.namespace + "/" + n.name
  }

  function Slashes(s: string): nat {
    if s == "" then 0 else (if s[0] == '/' then 1 else 0) + Slashes(s[1..])
  }

  /** Reads the reference off the annotations, whatever order the map yields them in. */
  method LBForSource(namespace: string, annotations: map<string, string>) returns (ref: Option<ObjectName>, found: bool)
    ensures found <==> ANNOTATION in annotations
    ensures ref == if found then Parse(namespace, annotations[ANNOTATION]) else None
  {
    var todo := annotations.Keys;
    while todo != {}
      invariant todo <= annotations.Keys
      invariant ANNOTATION in annotations ==> ANNOTATION in todo
    {
      var n :| n in todo;
      if n == ANNOTATION {
        var parts := Split(annotations[n], '/');
        if |parts| == 1 {
          return Some(ObjectName(namespace, parts[0])), true;
        } else if |parts| == 2 {
          return Some(ObjectName(parts[0], parts[1])), true;
        } else {
          return None, true;
        }
      }
      todo := todo - {n};
    }
    return None, false;
  }

  lemma {:induction false} SplitCount(s: string)
    ensures |Split(s, '/')| == 1 + Slashes(s)
  {
    if s != "" {
      SplitCount(s[1..]);
    }
  }

  lemma {:induction false} SlashesAppend(a: string, b: string)
    ensures Slashes(a + b) == Slashes(a) + Slashes(b)
  {
    if a == "" {
      assert a + b == b;
    } else {
      assert (a + b)[1..] == a[1..] + b;
      SlashesAppend(a[1..], b);
    }
  }

  lemma {:induction false} SplitPlain(s: string)
    requires Slashes(s) == 0
    ensures Split(s, '/') == [s]
  {
    if s != "" {
      SplitPlain(s[1..]);
      assert s == [s[0]] + s[1..];
    }
  }

  lemma {:induction false} SplitFirst(a: string, b: string)
    requires Slashes(a) == 0
    ensures Split(a + "/" + b, '/') == [a] + Split(b, '/')
  {
    if a == "" {
      assert (a + "/" + b)[1..] == b;
    } else {
      assert (a + "/" + b)[1..] == a[1..] + "/" + b;
      SplitFirst(a[1..], b);
      assert a == [a[0]] + a[1..];
    }
  }

  /** Printing and parsing is the identity exactly for names without a slash. */
  lemma RoundTripIff(own: string, n: ObjectName)
    ensures Parse(own, Print(n)) == Some(n) <==> Slashes(n.namespace) == 0 && Slashes(n.name) == 0
  {
    SlashesAppend(n.namespace + "/", n.name);
    SlashesAppend(n.namespace, "/");
    SplitCount(Print(n));
    assert Slashes("/") == 1;
    if Slashes(n.namespace) == 0 && Slashes(n.name) == 0 {
      SplitFirst(n.namespace, n.name);
      SplitPlain(n.name);
    }
  }

  /** A bare name means the source's own namespace; a value is unusable exactly with two or more slashes. */
  lemma ParseRule(own: string, value: string)
    ensures Slashes(value) == 0 ==> Parse(own, value) == Some(ObjectName(own, value))
    ensures Parse(own, value) == None <==> Slashes(value) >= 2
  {
    SplitCount(value);
    if Slashes(value) == 0 {
      SplitPlain(value);
    }
  }
}
