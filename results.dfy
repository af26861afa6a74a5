/** Success/failure values for the container's fail-fast operations, and the
    errors Beans.js throws (as strings there, as constructors here). */
module Results {

  datatype Option<+T> = None | Some(value: T)

  datatype Result<+T> = Ok(value: T) | Err(error: Error) {
    predicate IsFailure() { Err? }

    function PropagateFailure<U>(): Result<U>
      requires Err?
    {
      Err(error)
    }

    function Extract(): T
      requires Ok?
    {
      value
    }
  }

  /** The messages thrown by Beans.js, one constructor per `throw` site, plus the
      run-time failures JavaScript itself raises. */
  datatype Error =
    // declaration checking of beans (Beans.js:110-220)
    | MissingBeanId
    | DuplicatedId(id: string)
    | MissingClass(id: string)
    | UnknownScope(scope: string)
    | MissingPropertyName(beanId: string)
    | DuplicatedPropertyName(name: string, beanId: string)
    | ExpectingOneValueSource(name: string, beanId: string)
    | ListWithoutElem(name: string, beanId: string)
    | ElemExpectingOne(name: string, beanId: string)
    // validation (Beans.js:225-282)
    | ImportFailed(aClass: string, beanId: string)
    | InvalidPropertyName(beanId: string)
    | NoSetterNorField(name: string, beanId: string)
    | RefNotFound(ref: string, name: string, beanId: string)
    // declaration checking of aspects (Beans.js:416-489)
    | AopMissingAttributes
    | AopMissingBean
    | AopMissingAdvice
    | AopUnknownAdvice(advice: string)
    | AopBeanNotFound(bean: string)
    | AopAdviceNotMethod(advice: string)
    | AopRefNotFound(ref: string)
    | AopMethodNotFound(name: string, ref: string)
    // raised by the JavaScript engine, not by a `throw` of the library
    | TypeError(what: string)
    | SyntaxError(pattern: string)
    | StackOverflow
}
