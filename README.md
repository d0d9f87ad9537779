# Annotation consistency checker — Dafny model

This project models the build-time checker in `gen/check_annotations.go`. The
checker loads the descriptor of a proto file and runs over every method of one
named RPC service. It requires each method to:

- carry a `Method` annotation,
- give that annotation both a scope and an access level,
- exist on the compiled server interface type, and
- if it is a unary method, declare a scope that matches its request type.
  A `SCOPE_CLUSTER` request must have no `Namespace` field. A
  `SCOPE_NAMESPACE` request must have one.

The checker stops at the first violation. `main` runs the check for
`WorkflowService` and then, only if that passed, for `OperatorService`. It
exits with status 1 on the first error.

The model has two files:

- `wrappers.dfy` (module `Wrappers`) holds `Option` and `Result`.
- `check_annotations.dfy` (module `CheckAnnotations`) holds the rest:
  - the data model: scope, access, annotation, method/service/file
    descriptors, the server-type table and the errors;
  - `validateAnnotation` as the function `ValidateAnnotation`;
  - `checkAnnotations` as the method `CheckAnnotations`, with two nested loops
    and early return, proved equal to the recursive specification
    `Check`/`FirstError`;
  - `main` as the method `Run`.

The whole annotation invariant is written once, declaratively, as the
predicate `Consistent`. The validator succeeds exactly when `Consistent`
holds, and the whole check succeeds exactly when every method of every
matching service is `Consistent`.

Inputs that stand in for what the Go code gets from libraries:

- **Loading.** The compressed descriptor blob goes through `gzip.NewReader`,
  `io.ReadAll`, `Close` and `proto.Unmarshal`. The model replaces all of this
  with an input `Result<FileDescriptor, LoadError>`. `LoadError` names the
  stage that failed. In `Run`, the compiled-in registry `proto.FileDescriptor`
  is a function parameter `load` from proto file path to that result.
- **The Method extension.** `proto.GetExtension` plus the type assertion
  becomes an `Option<Annotation>` on each method. An absent extension, or one
  of the wrong type, is `None`.
- **Reflection over the server interface.** This becomes a
  `map<string, MethodSig>`. A `MethodSig` records `NumIn()` and whether the
  request struct has a `Namespace` field. Methods of an interface type carry
  no receiver. So a unary method `(ctx, req)` has `numIn == 2`. A
  client-streaming or bidirectional method `(stream)` has 1. A
  server-streaming method `(req, stream)` also has 2.

Points of the code that are easy to misread:

- The shape rule applies when the method's type has at least two parameters.
  It inspects the second parameter, `In(1)`, which is the request after the
  context.
- Proto3 enums are open, so a descriptor can carry a scope number the enum
  does not declare. The code accepts such a scope: it is not
  `SCOPE_UNSPECIFIED`, and neither shape branch fires. The model represents
  it as `UnknownScope`, and `ShapeRule` states that it always passes.
- A service name that matches no service validates nothing, and the check
  passes (`NoMatchingServicePasses`). If several services share the name,
  all of them are checked, in order.

## Model

| member | source | states |
|---|---|---|
| `CheckAnnotations.ValidateAnnotation` | gen/check_annotations.go:77-106 | The validator returns no error exactly when the method is annotated, the annotation is complete, the method is on the server type, and, for a method with at least two parameters, the scope matches the request shape (`Consistent`). Every error it returns is a validation error that names the method. |
| `CheckAnnotations.MissingAnnotationFirst` | gen/check_annotations.go:78-80 | An unannotated method fails with `AnnotationMissing`, whatever the server type holds. No later rule is consulted. |
| `CheckAnnotations.MissingScopeSecond` | gen/check_annotations.go:81-83 | An annotation with `SCOPE_UNSPECIFIED` fails with `ScopeMissing`, whatever the access level and the server type. |
| `CheckAnnotations.MissingAccessThird` | gen/check_annotations.go:84-86 | A specified scope with `ACCESS_UNSPECIFIED` fails with `AccessMissing`. The result does not depend on the server type, so this error is reported before the lookup. |
| `CheckAnnotations.UnknownMethodFourth` | gen/check_annotations.go:89-92 | A complete annotation on a name the server type lacks fails with `MethodNotFound`. |
| `CheckAnnotations.OnlyOwnEntryConsulted` | gen/check_annotations.go:89 | The lookup is by exact name. Two server types that agree on the method's own entry give the same result. |
| `CheckAnnotations.StreamingExempt` | gen/check_annotations.go:94-105 | A complete annotation on a found method with fewer than two parameters passes, whatever its scope. |
| `CheckAnnotations.ShapeRule` | gen/check_annotations.go:94-103 | For a method with at least two parameters, CLUSTER fails with `ClusterHasNamespace` exactly when the request has a Namespace field. NAMESPACE fails with `NamespaceLacksNamespace` exactly when it has none. An undeclared scope number always passes. |
| `CheckAnnotations.SelectedAppend` | gen/check_annotations.go:60-64 | Walking two runs of services in turn visits their methods in turn. |
| `CheckAnnotations.SelectedMembers` | gen/check_annotations.go:60-64 | A method is visited exactly when it belongs to a service whose name equals the target. Services with other names are never validated. |
| `CheckAnnotations.SelectedStep` | gen/check_annotations.go:60-64 | One more service adds its methods to the walk exactly when its name matches. |
| `CheckAnnotations.FirstErrorAppend` | gen/check_annotations.go:64-70 | For methods `a` then `b`: if `a` has a failing method, the result is `a`'s first error. Otherwise it is `b`'s. |
| `CheckAnnotations.TraceAppend` | gen/check_annotations.go:64-70 | For methods `a` then `b`: if `a` has a failing method, the validator calls stop inside `a`. Otherwise they cover all of `a` and then walk `b`. |
| `CheckAnnotations.MethodStep` | gen/check_annotations.go:64-71 | Adding a method that passes to an error-free prefix keeps it error-free. |
| `CheckAnnotations.FirstErrorNoneIff` | gen/check_annotations.go:64-74 | The walk succeeds exactly when every method is `Consistent`. It then validates every method exactly once, in declaration order. |
| `CheckAnnotations.FirstFailureReported` | gen/check_annotations.go:64-70 | If method `i` is the first to fail, the walk returns that method's error. It validates exactly the methods up to and including `i`, and none after. |
| `CheckAnnotations.FirstErrorHasFirstFailure` | gen/check_annotations.go:64-70 | A failing walk has a first failing method, and the walk reports that method's error. |
| `CheckAnnotations.SelectedAround` | gen/check_annotations.go:60-72 | The visited methods split into those before method `j` of matching service `i`, that method, and those after it. |
| `CheckAnnotations.StopAt` | gen/check_annotations.go:64-72 | The first failure at method `j` of matching service `i` decides the result. The result is that error, and the methods validated are exactly those visited up to it. |
| `CheckAnnotations.CheckSucceedsIff` | gen/check_annotations.go:43-75 | The check succeeds exactly when the descriptor loaded and every method of every service with the target name is `Consistent`. A load failure is returned as the error, `LoadFailed` with the failing stage. |
| `CheckAnnotations.NoMatchingServicePasses` | gen/check_annotations.go:60-74 | If no service carries the target name, nothing is validated and the check passes. |
| `CheckAnnotations.FirstMethodErrorWins` | gen/check_annotations.go:64-70 | Take an unannotated first method followed by a CLUSTER method whose request has a Namespace field. The check reports the first method's `AnnotationMissing`, and the second method is never validated. |
| `CheckAnnotations.CheckAnnotations` | gen/check_annotations.go:43-75 | The nested loops return the `Check` result: the load error, or the first failing method's error in declaration order, or success. The methods they hand to the validator are exactly `CheckTrace`: none after the first failure, none of a non-matching service, and none on a load failure. |
| `CheckAnnotations.RunSucceedsIff` | gen/check_annotations.go:108-127 | The program exits 0 exactly when both descriptors load and both `WorkflowService` and `OperatorService` are fully `Consistent`. |
| `CheckAnnotations.Run` | gen/check_annotations.go:108-127 | The output is pass 1's error if pass 1 failed, otherwise pass 2's. The exit code is 0 on success and 1 on any error. Pass 2 validates nothing when pass 1 failed. |

## Left out

- Gzip decompression, `io.ReadAll`, `Close` and `proto.Unmarshal` are foreign library calls. They are modelled only as a `Result` that holds a descriptor or the failing stage. The library's own error values are not modelled.
- `proto.GetExtension` and the `*annpb.Method` type assertion are modelled only as each method's `Option<Annotation>`.
- Go reflection (`MethodByName`, `NumIn`, `In(1).Elem()`, `FieldByName`) is replaced by the `ServerType` table. A panic in `Elem()` on a non-pointer request parameter is not modelled. A `Namespace` field reached through an embedded struct is folded into the stored boolean.
- Server-streaming methods are not modelled faithfully. Their signature `(req, stream)` has two parameters, so they take the `numIn >= 2` branch. There the Go code calls `In(1).Elem()` on the stream interface type, and that call panics. The model instead applies the shape rule to the stored `reqHasNamespace` boolean.
- Dereferencing `*service.Name` and `*method.Name` would panic on a nil name. This is not modelled: names are always set in compiled descriptors.
- Error message text (`fmt.Errorf`) is not modelled. Each error constructor carries the method name instead.
- Printing and `os.Exit` are modelled as `Run`'s `output` and `exitCode` results.
- Access levels other than `ACCESS_UNSPECIFIED` are identified only by their enum number. The checker never distinguishes between them.
