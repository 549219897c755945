/**
 * The .NET exceptions that the services raise and the middleware classifies.
 * An exception is a value: its runtime type, its message, the exception it wraps,
 * the method that threw it and its stack trace.
 */
module Exceptions {
  import opened Wrappers

  /**
   * A runtime type: its full name and the full names of the classes it derives from,
   * nearest first. A `catch (T)` clause catches T and every type derived from T.
   */
  datatype ExceptionType = ExceptionType(fullName: string, bases: seq<string>)

  /** The runtime type is `name` or derives from it. */
  predicate IsA(t: ExceptionType, name: string) {
    t.fullName == name || name in t.bases
  }

  /** What `exception.GetType().ToString()` prints. */
  function FullName(t: ExceptionType): string {
    t.fullName
  }

  const ExceptionName := "System.Exception"
  const SystemExceptionName := "System.SystemException"
  const FieldAccessName := "System.FieldAccessException"
  const ValidationName := "System.ComponentModel.DataAnnotations.ValidationException"
  const UnauthorizedAccessName := "System.UnauthorizedAccessException"
  const ArgumentName := "System.ArgumentException"
  const DbUpdateName := "Microsoft.EntityFrameworkCore.DbUpdateException"

  const SystemBases := [SystemExceptionName, ExceptionName]

  const FieldAccess := ExceptionType(FieldAccessName, ["System.MemberAccessException"] + SystemBases)
  const Validation := ExceptionType(ValidationName, [ExceptionName])
  const UnauthorizedAccess := ExceptionType(UnauthorizedAccessName, SystemBases)
  const Argument := ExceptionType(ArgumentName, SystemBases)
  const ArgumentNull := ExceptionType("System.ArgumentNullException", [ArgumentName] + SystemBases)
  const ArgumentOutOfRange := ExceptionType("System.ArgumentOutOfRangeException", [ArgumentName] + SystemBases)
  const Application := ExceptionType("System.ApplicationException", [ExceptionName])
  const NullReference := ExceptionType("System.NullReferenceException", SystemBases)
  const InvalidOperation := ExceptionType("System.InvalidOperationException", SystemBases)
  const DbUpdate := ExceptionType(DbUpdateName, [ExceptionName])
  const DbUpdateConcurrency := ExceptionType("Microsoft.EntityFrameworkCore.DbUpdateConcurrencyException", [DbUpdateName, ExceptionName])
  const SqlError := ExceptionType("Microsoft.Data.SqlClient.SqlException",
    ["System.Data.Common.DbException", "System.Runtime.InteropServices.ExternalException"] + SystemBases)

  /** `ArgumentException` or any type derived from it, such as `ArgumentNullException`. */
  predicate IsArgumentException(t: ExceptionType) {
    IsA(t, ArgumentName)
  }

  /** `exception.TargetSite`: the method's text and its declaring type's assembly-qualified name. */
  datatype MethodSite = MethodSite(signature: string, declaringType: Option<string>)

  datatype Exception = Exception(
    kind: ExceptionType,
    message: string,
    inner: Option<Exception>,
    targetSite: Option<MethodSite>,
    stackTrace: string)

  /** An exception as constructed by `new T(message)`; throw-site details are not modelled. */
  function Raise(kind: ExceptionType, message: string): (e: Exception)
    ensures e.kind == kind && e.message == message && e.inner.None?
  {
    Exception(kind, message, None, None, "")
  }

  /** An exception constructed by `new T(message, inner)`, wrapping the exception that caused it. */
  function Wrapping(kind: ExceptionType, message: string, inner: Exception): (e: Exception)
    ensures e.kind == kind && e.message == message && e.inner == Some(inner)
  {
    Exception(kind, message, Some(inner), None, "")
  }

  /** `new ApplicationException(message)`, the services' own error. */
  function ApplicationError(message: string): Exception {
    Raise(Application, message)
  }

  const NullReferenceMessage := "Object reference not set to an instance of an object."
}
