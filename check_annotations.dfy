/**
 * A model of the build-time annotation checker of gen/check_annotations.go.
 *
 * Every RPC method of a checked service must carry a Method annotation whose
 * scope and access level are both given, must exist on the compiled server
 * interface, and, when it is a unary method, must declare a scope that agrees
 * with its request type: a cluster-scoped request has no Namespace field, a
 * namespace-scoped request has one.
 *
 * The descriptor loader, the extension lookup and Go reflection are replaced
 * by plain inputs: a Result that either holds the parsed descriptor or says
 * which loading stage failed, an Option for each method's annotation, and a
 * table from method name to the two facts about its signature that the check
 * reads.
 */
module CheckAnnotations {
  import opened Wrappers

  // ---------------------------------------------------------------------------
  // Data model
  // ---------------------------------------------------------------------------

  /**
   * The Scope enum of the annotation. Proto3 enums are open, so a descriptor
   * may carry a number the enum does not declare; UnknownScope stands for any
   * such number (the checker treats every one of them alike).
   */
  datatype Scope = ScopeUnspecified | Cluster | Namespace | UnknownScope

  /** Enum numbers of the Access enum other than ACCESS_UNSPECIFIED, which proto3 puts at 0. */
  type AccessCode = c: int | c != 0 witness 1

  /** The Access enum: unspecified, or some access level identified by its number. */
  datatype Access = AccessUnspecified | Level(code: AccessCode)

  /** The Method annotation extension attached to an RPC method's options. */
  datatype Annotation = Annotation(scope: Scope, access: Access)

  /**
   * One method of a service descriptor. `annotation` is None when the options
   * carry no Method extension, or one that does not decode to an annotation.
   */
  datatype MethodDesc = MethodDesc(name: string, annotation: Option<Annotation>)

  /** One service of a file descriptor, with its methods in declaration order. */
  datatype ServiceDesc = ServiceDesc(name: string, methods: seq<MethodDesc>)

  /** A parsed proto file descriptor: its services in declaration order. */
  datatype FileDescriptor = FileDescriptor(services: seq<ServiceDesc>)

  /**
   * What the checker learns by reflection about one method of the server
   * interface: how many parameters it takes, and whether the struct its
   * second parameter points to has a field named Namespace. An interface
   * method type has no receiver. So a unary method `(ctx, req)` has two
   * parameters, a client-streaming or bidirectional method `(stream)` has
   * one, and a server-streaming method `(req, stream)` also has two.
   */
  datatype MethodSig = MethodSig(numIn: nat, reqHasNamespace: bool)

  /** The server interface type, as a table from method name to signature. */
  type ServerType = map<string, MethodSig>

  /** The stage of descriptor loading that failed. */
  datatype LoadError = OpenFailed | ReadFailed | CloseFailed | UnmarshalFailed

  /** The errors the checker returns; every validation error names its method. */
  datatype Error =
    | LoadFailed(cause: LoadError)
    | AnnotationMissing(methodName: string)
    | ScopeMissing(methodName: string)
    | AccessMissing(methodName: string)
    | MethodNotFound(methodName: string)
    | ClusterHasNamespace(methodName: string)
    | NamespaceLacksNamespace(methodName: string)
  {
    /** This is a validation error about the method called `name`. */
    predicate About(name: string) {
      !LoadFailed? && methodName == name
    }
  }

  /**
   * A method the checker treats as request/response, because it takes at
   * least two parameters. Methods with fewer skip the shape rule.
   */
  predicate IsUnary(sig: MethodSig) {
    sig.numIn >= 2
  }

  /** A complete annotation: both the scope and the access level are given. */
  predicate Complete(a: Annotation) {
    !a.scope.ScopeUnspecified? && !a.access.AccessUnspecified?
  }

  /**
   * The invariant every checked method must satisfy, stated declaratively: it
   * is annotated, the annotation is complete, the server type has the method,
   * and if the method is unary its scope agrees with its request's shape.
   */
  predicate Consistent(server: ServerType, name: string, ann: Option<Annotation>) {
    ann.Some? && Complete(ann.value) && name in server &&
    (IsUnary(server[name]) ==>
       (ann.value.scope.Cluster? ==> !server[name].reqHasNamespace) &&
       (ann.value.scope.Namespace? ==> server[name].reqHasNamespace))
  }

  // ---------------------------------------------------------------------------
  // validateAnnotation
  // ---------------------------------------------------------------------------

  /**
   * Checks one method against its annotation and the server type, reporting
   * the first broken rule: missing annotation, missing scope, missing access
   * level, method absent from the server type, scope contradicting the
   * request's shape. None means the method passed.
   */
  function ValidateAnnotation(server: ServerType, name: string, ann: Option<Annotation>): (r: Option<Error>)
    ensures r.None? <==> Consistent(server, name, ann)
    ensures r.Some? ==> r.value.About(name)
  {
    if ann.None? then Some(AnnotationMissing(name))
    else if ann.value.scope.ScopeUnspecified? then Some(ScopeMissing(name))
    else if ann.value.access.AccessUnspecified? then Some(AccessMissing(name))
    else if name !in server then Some(MethodNotFound(name))
    else if IsUnary(server[name]) then
      var hasNamespace := server[name].reqHasNamespace;
      if ann.value.scope.Cluster? && hasNamespace then Some(ClusterHasNamespace(name))
      else if ann.value.scope.Namespace? && !hasNamespace then Some(NamespaceLacksNamespace(name))
      else None
    else None
  }

  /** Rule 1 comes first: an unannotated method fails whatever the server type says. */
  lemma MissingAnnotationFirst(server: ServerType, name: string)
    ensures ValidateAnnotation(server, name, None) == Some(AnnotationMissing(name))
  {
  }

  /** Rule 2: an unspecified scope fails whatever the access level and the server type. */
  lemma MissingScopeSecond(server: ServerType, name: string, access: Access)
    ensures ValidateAnnotation(server, name, Some(Annotation(ScopeUnspecified, access))) == Some(ScopeMissing(name))
  {
  }

  /** Rule 3: with a scope but no access level, the error comes before any server lookup. */
  lemma MissingAccessThird(server: ServerType, name: string, scope: Scope)
    requires !scope.ScopeUnspecified?
    ensures ValidateAnnotation(server, name, Some(Annotation(scope, AccessUnspecified))) == Some(AccessMissing(name))
  {
  }

  /** Rule 4: a complete annotation on a name the server type lacks. */
  lemma UnknownMethodFourth(server: ServerType, name: string, a: Annotation)
    requires Complete(a) && name !in server
    ensures ValidateAnnotation(server, name, Some(a)) == Some(MethodNotFound(name))
  {
  }

  /** The lookup is by exact name: no other entry of the server type is consulted. */
  lemma OnlyOwnEntryConsulted(server1: ServerType, server2: ServerType, name: string, ann: Option<Annotation>)
    requires name in server1 <==> name in server2
    requires name in server1 ==> server1[name] == server2[name]
    ensures ValidateAnnotation(server1, name, ann) == ValidateAnnotation(server2, name, ann)
  {
  }

  /** Methods with fewer than two parameters are exempt from the shape rule, whatever their scope. */
  lemma StreamingExempt(server: ServerType, name: string, a: Annotation)
    requires Complete(a) && name in server && !IsUnary(server[name])
    ensures ValidateAnnotation(server, name, Some(a)) == None
  {
  }

  /**
   * Rule 5 for unary methods: CLUSTER fails exactly when the request has a
   * Namespace field, NAMESPACE fails exactly when it has none, and a scope
   * number the enum does not declare passes either way.
   */
  lemma ShapeRule(server: ServerType, name: string, a: Annotation)
    requires Complete(a) && name in server && IsUnary(server[name])
    ensures var r := ValidateAnnotation(server, name, Some(a));
            var hasNamespace := server[name].reqHasNamespace;
            (a.scope.Cluster? ==> r == if hasNamespace then Some(ClusterHasNamespace(name)) else None) &&
            (a.scope.Namespace? ==> r == if hasNamespace then None else Some(NamespaceLacksNamespace(name))) &&
            (a.scope.UnknownScope? ==> r == None)
  {
  }

  // ---------------------------------------------------------------------------
  // checkAnnotations: the specification
  // ---------------------------------------------------------------------------

  /** The methods the checker visits: those of every service named `serviceName`, in order. */
  function Selected(services: seq<ServiceDesc>, serviceName: string): seq<MethodDesc> {
    if services == [] then []
    else (if services[0].name == serviceName then services[0].methods else []) + Selected(services[1..], serviceName)
  }

  /** Validation of one method descriptor. */
  function Validate(server: ServerType, m: MethodDesc): Option<Error> {
    ValidateAnnotation(server, m.name, m.annotation)
  }

  /** The error of the first method in `ms` that fails validation, if any. */
  function FirstError(server: ServerType, ms: seq<MethodDesc>): Option<Error> {
    if ms == [] then None
    else if Validate(server, ms[0]).Some? then Validate(server, ms[0])
    else FirstError(server, ms[1..])
  }

  /** The methods handed to the validator when `ms` is walked with early return. */
  function Trace(server: ServerType, ms: seq<MethodDesc>): seq<MethodDesc> {
    if ms == [] then []
    else [ms[0]] + (if Validate(server, ms[0]).Some? then [] else Trace(server, ms[1..]))
  }

  /** What checkAnnotations returns for a loader outcome, a service name and a server type. */
  function Check(loaded: Result<FileDescriptor, LoadError>, serviceName: string, server: ServerType): Option<Error> {
    match loaded
    case Failure(e) => Some(LoadFailed(e))
    case Success(d) => FirstError(server, Selected(d.services, serviceName))
  }

  /** The methods checkAnnotations validates, in the order it validates them. */
  function CheckTrace(loaded: Result<FileDescriptor, LoadError>, serviceName: string, server: ServerType): seq<MethodDesc> {
    match loaded
    case Failure(_) => []
    case Success(d) => Trace(server, Selected(d.services, serviceName))
  }

  /** Method `i` is the first of `ms` to fail validation. */
  predicate IsFirstFailure(server: ServerType, ms: seq<MethodDesc>, i: int) {
    0 <= i < |ms| && Validate(server, ms[i]).Some? &&
    forall k :: 0 <= k < i ==> Validate(server, ms[k]).None?
  }

  /** Every method of every service named `serviceName` satisfies the annotation invariant. */
  predicate AllConsistent(d: FileDescriptor, serviceName: string, server: ServerType) {
    forall j, m :: 0 <= j < |d.services| && d.services[j].name == serviceName && m in d.services[j].methods ==>
      Consistent(server, m.name, m.annotation)
  }

  // ---------------------------------------------------------------------------
  // checkAnnotations: properties of the specification
  // ---------------------------------------------------------------------------

  /** Visiting two runs of services one after the other visits their methods one after the other. */
  lemma {:induction false} SelectedAppend(a: seq<ServiceDesc>, b: seq<ServiceDesc>, serviceName: string)
    ensures Selected(a + b, serviceName) == Selected(a, serviceName) + Selected(b, serviceName)
  {
    if a == [] {
      assert a + b == b;
    } else {
      assert (a + b)[0] == a[0];
      assert (a + b)[1..] == a[1..] + b;
      SelectedAppend(a[1..], b, serviceName);
    }
  }

  /** Exactly the methods of matching services are visited; other services contribute nothing. */
  lemma {:induction false} SelectedMembers(services: seq<ServiceDesc>, serviceName: string, m: MethodDesc)
    ensures m in Selected(services, serviceName) <==>
            exists j :: 0 <= j < |services| && services[j].name == serviceName && m in services[j].methods
  {
    if services != [] {
      SelectedMembers(services[1..], serviceName, m);
      if m in Selected(services[1..], serviceName) {
        var j :| 0 <= j < |services[1..]| && services[1..][j].name == serviceName && m in services[1..][j].methods;
        assert services[j + 1] == services[1..][j];
      }
      if exists j :: 0 <= j < |services| && services[j].name == serviceName && m in services[j].methods {
        var j :| 0 <= j < |services| && services[j].name == serviceName && m in services[j].methods;
        if j > 0 {
          assert services[1..][j - 1] == services[j];
        }
      }
    }
  }

  /**
   * Walking `a + b` with early return: if `a` has a failing method its error
   * is the answer, otherwise the answer is that of `b`.
   */
  lemma {:induction false} FirstErrorAppend(server: ServerType, a: seq<MethodDesc>, b: seq<MethodDesc>)
    ensures FirstError(server, a + b) == if FirstError(server, a).Some? then FirstError(server, a) else FirstError(server, b)
  {
    if a != [] {
      assert (a + b)[0] == a[0];
      assert (a + b)[1..] == a[1..] + b;
      FirstErrorAppend(server, a[1..], b);
    } else {
      assert a + b == b;
    }
  }

  /**
   * The walk of `a + b` stops inside `a` if `a` has a failing method;
   * otherwise it visits all of `a` and then walks `b`.
   */
  lemma {:induction false} TraceAppend(server: ServerType, a: seq<MethodDesc>, b: seq<MethodDesc>)
    ensures Trace(server, a + b) == if FirstError(server, a).Some? then Trace(server, a) else a + Trace(server, b)
  {
    if a != [] {
      assert (a + b)[0] == a[0];
      assert (a + b)[1..] == a[1..] + b;
      TraceAppend(server, a[1..], b);
      if Validate(server, a[0]).None? {
        assert a == [a[0]] + a[1..];
      }
    } else {
      assert a + b == b;
    }
  }

  /**
   * The walk succeeds exactly when every method satisfies the annotation
   * invariant, and then it has validated every method exactly once, in order.
   */
  lemma {:induction false} FirstErrorNoneIff(server: ServerType, ms: seq<MethodDesc>)
    ensures FirstError(server, ms).None? <==> forall k :: 0 <= k < |ms| ==> Consistent(server, ms[k].name, ms[k].annotation)
    ensures FirstError(server, ms).None? ==> Trace(server, ms) == ms
  {
    if ms != [] {
      FirstErrorNoneIff(server, ms[1..]);
      assert forall k :: 1 <= k < |ms| ==> ms[k] == ms[1..][k - 1];
      if FirstError(server, ms).None? {
        assert ms == [ms[0]] + ms[1..];
      }
    }
  }

  /**
   * If method `i` is the first to fail, the walk reports its error and has
   * validated exactly the methods up to and including it: none after it.
   */
  lemma {:induction false} FirstFailureReported(server: ServerType, ms: seq<MethodDesc>, i: int)
    requires IsFirstFailure(server, ms, i)
    ensures FirstError(server, ms) == Validate(server, ms[i])
    ensures Trace(server, ms) == ms[..i + 1]
  {
    if i > 0 {
      assert Validate(server, ms[0]).None?;
      assert IsFirstFailure(server, ms[1..], i - 1) by {
        forall k | 0 <= k < i - 1
          ensures Validate(server, ms[1..][k]).None?
        {
          assert ms[1..][k] == ms[k + 1];
        }
      }
      FirstFailureReported(server, ms[1..], i - 1);
      assert ms[..i + 1] == [ms[0]] + ms[1..][..i];
    } else {
      assert ms[..1] == [ms[0]];
    }
  }

  /** A failing walk always has a first failing method, whose error it reports. */
  lemma {:induction false} FirstErrorHasFirstFailure(server: ServerType, ms: seq<MethodDesc>)
    requires FirstError(server, ms).Some?
    ensures exists i :: IsFirstFailure(server, ms, i) && FirstError(server, ms) == Validate(server, ms[i])
  {
    if Validate(server, ms[0]).Some? {
      assert IsFirstFailure(server, ms, 0);
    } else {
      FirstErrorHasFirstFailure(server, ms[1..]);
      var i :| IsFirstFailure(server, ms[1..], i) && FirstError(server, ms[1..]) == Validate(server, ms[1..][i]);
      assert ms[1..][i] == ms[i + 1];
      forall k | 0 <= k < i + 1
        ensures Validate(server, ms[k]).None?
      {
        if k > 0 {
          assert ms[k] == ms[1..][k - 1];
        }
      }
      assert IsFirstFailure(server, ms, i + 1);
    }
  }

  /**
   * checkAnnotations succeeds exactly when the descriptor loaded and every
   * method of every service named `serviceName` satisfies the invariant.
   */
  lemma CheckSucceedsIff(loaded: Result<FileDescriptor, LoadError>, serviceName: string, server: ServerType)
    ensures Check(loaded, serviceName, server).None? <==>
            loaded.Success? && AllConsistent(loaded.value, serviceName, server)
    ensures loaded.Failure? ==> Check(loaded, serviceName, server) == Some(LoadFailed(loaded.error))
  {
    if loaded.Success? {
      var d := loaded.value;
      var ms := Selected(d.services, serviceName);
      FirstErrorNoneIff(server, ms);
      if FirstError(server, ms).None? {
        forall j, m | 0 <= j < |d.services| && d.services[j].name == serviceName && m in d.services[j].methods
          ensures Consistent(server, m.name, m.annotation)
        {
          SelectedMembers(d.services, serviceName, m);
          var k :| 0 <= k < |ms| && ms[k] == m;
        }
      } else {
        var k :| 0 <= k < |ms| && !Consistent(server, ms[k].name, ms[k].annotation);
        SelectedMembers(d.services, serviceName, ms[k]);
      }
    }
  }

  /** When no service carries the name, nothing is validated and the check passes. */
  lemma NoMatchingServicePasses(d: FileDescriptor, serviceName: string, server: ServerType)
    requires forall j :: 0 <= j < |d.services| ==> d.services[j].name != serviceName
    ensures Check(Success(d), serviceName, server) == None
    ensures CheckTrace(Success(d), serviceName, server) == []
  {
    if Selected(d.services, serviceName) != [] {
      var m := Selected(d.services, serviceName)[0];
      SelectedMembers(d.services, serviceName, m);
    }
  }

  /**
   * First failure wins: with the first method unannotated and the second
   * carrying a shape error, the first method's AnnotationMissing is reported
   * and the second method is never validated.
   */
  lemma FirstMethodErrorWins(server: ServerType, serviceName: string, first: string, second: string, a: Annotation)
    requires Complete(a) && a.scope.Cluster?
    requires second in server && IsUnary(server[second]) && server[second].reqHasNamespace
    ensures var d := FileDescriptor([ServiceDesc(serviceName, [MethodDesc(first, None), MethodDesc(second, Some(a))])]);
            Check(Success(d), serviceName, server) == Some(AnnotationMissing(first)) &&
            CheckTrace(Success(d), serviceName, server) == [MethodDesc(first, None)]
  {
  }

  // ---------------------------------------------------------------------------
  // checkAnnotations: the loop
  // ---------------------------------------------------------------------------

  /** One more service visited adds its methods if, and only if, its name matches. */
  lemma SelectedStep(services: seq<ServiceDesc>, i: int, serviceName: string)
    requires 0 <= i < |services|
    ensures Selected(services[..i + 1], serviceName) ==
            Selected(services[..i], serviceName) + if services[i].name == serviceName then services[i].methods else []
  {
    assert services[..i + 1] == services[..i] + [services[i]];
    SelectedAppend(services[..i], [services[i]], serviceName);
  }

  /** One more method that passes validation keeps the walk error-free. */
  lemma MethodStep(server: ServerType, done: seq<MethodDesc>, m: MethodDesc)
    requires FirstError(server, done).None?
    requires Validate(server, m).None?
    ensures FirstError(server, done + [m]).None?
  {
    FirstErrorAppend(server, done, [m]);
  }

  /** The visited methods split around method `j` of matching service `i`. */
  lemma SelectedAround(services: seq<ServiceDesc>, serviceName: string, i: int, j: int)
    requires 0 <= i < |services| && services[i].name == serviceName
    requires 0 <= j < |services[i].methods|
    ensures Selected(services, serviceName) ==
            (Selected(services[..i], serviceName) + services[i].methods[..j]) + [services[i].methods[j]] +
            (services[i].methods[j + 1..] + Selected(services[i + 1..], serviceName))
  {
    var methods := services[i].methods;
    SelectedStep(services, i, serviceName);
    assert services == services[..i + 1] + services[i + 1..];
    SelectedAppend(services[..i + 1], services[i + 1..], serviceName);
    assert methods == methods[..j] + [methods[j]] + methods[j + 1..];
  }

  /**
   * The walk's answer is decided at the first failing method `j` of matching
   * service `i`: that error, with exactly the methods up to it validated.
   */
  lemma StopAt(server: ServerType, services: seq<ServiceDesc>, serviceName: string, i: int, j: int)
    requires 0 <= i < |services| && services[i].name == serviceName
    requires 0 <= j < |services[i].methods|
    requires FirstError(server, Selected(services[..i], serviceName) + services[i].methods[..j]).None?
    requires Validate(server, services[i].methods[j]).Some?
    ensures FirstError(server, Selected(services, serviceName)) == Validate(server, services[i].methods[j])
    ensures Trace(server, Selected(services, serviceName)) ==
            Selected(services[..i], serviceName) + services[i].methods[..j] + [services[i].methods[j]]
  {
    var m := services[i].methods[j];
    var done := Selected(services[..i], serviceName) + services[i].methods[..j];
    var rest := services[i].methods[j + 1..] + Selected(services[i + 1..], serviceName);
    SelectedAround(services, serviceName, i, j);
    FirstErrorAppend(server, done, [m]);
    FirstErrorAppend(server, done + [m], rest);
    TraceAppend(server, done, [m]);
    TraceAppend(server, done + [m], rest);
  }

  /**
   * Walks the services of the loaded descriptor, skips those with another
   * name, validates each method of a matching service in declaration order
   * and returns the first error. `validated` records the methods handed to
   * the validator.
   */
  method CheckAnnotations(loaded: Result<FileDescriptor, LoadError>, serviceName: string, server: ServerType)
    returns (err: Option<Error>, ghost validated: seq<MethodDesc>)
    ensures err == Check(loaded, serviceName, server)
    ensures validated == CheckTrace(loaded, serviceName, server)
  {
    validated := [];
    if loaded.Failure? {
      err := Some(LoadFailed(loaded.error));
      return;
    }
    var d := loaded.value;
    var i := 0;
    while i < |d.services|
      invariant 0 <= i <= |d.services|
      invariant validated == Selected(d.services[..i], serviceName)
      invariant FirstError(server, validated).None?
    {
      var service := d.services[i];
      if service.name != serviceName {
        SelectedStep(d.services, i, serviceName);
        assert validated + [] == validated;
        i := i + 1;
        continue;
      }
      ghost var before := validated;
      assert before + service.methods[..0] == before;
      var j := 0;
      while j < |service.methods|
        invariant 0 <= j <= |service.methods|
        invariant validated == before + service.methods[..j]
        invariant FirstError(server, validated).None?
      {
        var m := service.methods[j];
        var e := ValidateAnnotation(server, m.name, m.annotation);
        if e.Some? {
          StopAt(server, d.services, serviceName, i, j);
          validated := validated + [m];
          err := e;
          return;
        }
        MethodStep(server, validated, m);
        assert service.methods[..j + 1] == service.methods[..j] + [m];
        validated := validated + [m];
        j := j + 1;
      }
      assert service.methods[..|service.methods|] == service.methods;
      SelectedStep(d.services, i, serviceName);
      i := i + 1;
    }
    assert d.services[..|d.services|] == d.services;
    FirstErrorNoneIff(server, validated);
    err := None;
  }

  // ---------------------------------------------------------------------------
  // main: two passes
  // ---------------------------------------------------------------------------

  const WorkflowProtoFile: string := "temporal/api/workflowservice/v1/service.proto"
  const WorkflowServiceName: string := "WorkflowService"
  const OperatorProtoFile: string := "temporal/api/operatorservice/v1/service.proto"
  const OperatorServiceName: string := "OperatorService"

  /** The error main prints: pass 1's if it failed, otherwise pass 2's. */
  function RunOutcome(load: string -> Result<FileDescriptor, LoadError>, workflowServer: ServerType, operatorServer: ServerType): Option<Error> {
    var first := Check(load(WorkflowProtoFile), WorkflowServiceName, workflowServer);
    if first.Some? then first else Check(load(OperatorProtoFile), OperatorServiceName, operatorServer)
  }

  /** The program exits 0 exactly when both services load and are fully consistent. */
  lemma RunSucceedsIff(load: string -> Result<FileDescriptor, LoadError>, workflowServer: ServerType, operatorServer: ServerType)
    ensures RunOutcome(load, workflowServer, operatorServer).None? <==>
            load(WorkflowProtoFile).Success? && AllConsistent(load(WorkflowProtoFile).value, WorkflowServiceName, workflowServer) &&
            load(OperatorProtoFile).Success? && AllConsistent(load(OperatorProtoFile).value, OperatorServiceName, operatorServer)
  {
    CheckSucceedsIff(load(WorkflowProtoFile), WorkflowServiceName, workflowServer);
    CheckSucceedsIff(load(OperatorProtoFile), OperatorServiceName, operatorServer);
  }

  /**
   * The program's two passes. `load` stands for the compiled-in descriptor
   * registry; `output` is the line printed, `exitCode` the status. The second
   * pass runs only if the first succeeded, as `validated` shows.
   */
  method Run(load: string -> Result<FileDescriptor, LoadError>, workflowServer: ServerType, operatorServer: ServerType)
    returns (output: Option<Error>, exitCode: int, ghost validated: seq<MethodDesc>)
    ensures output == RunOutcome(load, workflowServer, operatorServer)
    ensures exitCode == if output.None? then 0 else 1
    ensures var first := load(WorkflowProtoFile);
            validated == CheckTrace(first, WorkflowServiceName, workflowServer) +
              if Check(first, WorkflowServiceName, workflowServer).Some? then []
              else CheckTrace(load(OperatorProtoFile), OperatorServiceName, operatorServer)
  {
    var err;
    err, validated := CheckAnnotations(load(WorkflowProtoFile), WorkflowServiceName, workflowServer);
    if err.Some? {
      output, exitCode := err, 1;
      return;
    }
    ghost var more;
    err, more := CheckAnnotations(load(OperatorProtoFile), OperatorServiceName, operatorServer);
    validated := validated + more;
    if err.Some? {
      output, exitCode := err, 1;
      return;
    }
    output, exitCode := None, 0;
  }
}
