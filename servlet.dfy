/** The part of the servlet API that the authorization filter relies on: the kind of
    dispatch a request is in, and the request's mutable attribute bag. */
module Servlet {
  /** `javax.servlet.DispatcherType`: why the request passes through the filter chain now. */
  datatype DispatcherType = FORWARD | INCLUDE | REQUEST | ASYNC | ERROR

  /** An HTTP request as a filter sees it. Attribute values are only ever `Boolean.TRUE`
      as far as this model is concerned, so the bag is a map from name to `bool`. The
      container changes the dispatcher type between dispatches; a filter does not. */
  class Request {
    var attributes: map<string, bool>
    var dispatcherType: DispatcherType

    constructor (dispatcherType: DispatcherType, attributes: map<string, bool>)
      ensures this.dispatcherType == dispatcherType && this.attributes == attributes
    {
      this.dispatcherType := dispatcherType;
      this.attributes := attributes;
    }

    /** `setAttribute(name, value)`: binds the name, replacing any earlier value. */
    method SetAttribute(name: string, value: bool)
      modifies this`attributes
      ensures attributes == old(attributes)[name := value]
    {
      attributes := attributes[name := value];
    }

    /** `removeAttribute(name)`: unbinds the name; nothing happens if it was unbound. */
    method RemoveAttribute(name: string)
      modifies this`attributes
      ensures attributes == old(attributes) - {name}
    {
      attributes := attributes - {name};
    }
  }
}
