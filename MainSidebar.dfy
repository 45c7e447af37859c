/** The main navigation sidebar: which menu entry is highlighted for the
    current location, and when navigating closes the mobile menu sheet. */
module MainSidebar {

  /** `isActive(path)`: the location is the route itself or lies below it. */
  predicate IsActive(pathname: string, path: string)
    ensures pathname == path ==> IsActive(pathname, path)
    ensures IsActive(pathname, path) ==> path <= pathname
  {
    pathname == path || path + "/" <= pathname
  }

  /** An independent reading of the rule: `path` is a prefix of the location
      and the location either ends there or continues with '/'. */
  lemma IsActiveIff(pathname: string, path: string)
    ensures IsActive(pathname, path) <==>
      path <= pathname && (|pathname| == |path| || pathname[|path|] == '/')
  {
    if path <= pathname && |pathname| > |path| && pathname[|path|] == '/' {
      assert pathname[..|path| + 1] == path + "/";
    }
    if path + "/" <= pathname {
      assert pathname[..|path|] == (path + "/")[..|path|];
    }
  }

  /** A detail page lies below its list route. */
  lemma DetailRouteIsActive()
    ensures IsActive("/work-orders/3", "/work-orders")
  {
    assert "/work-orders/3"[..|"/work-orders/"|] == "/work-orders/";
  }

  /** Sharing a prefix without the '/' boundary is not enough. */
  lemma SiblingRouteIsNotActive()
    ensures !IsActive("/work-orders-x", "/work-orders")
  {
    IsActiveIff("/work-orders-x", "/work-orders");
    assert "/work-orders-x"[|"/work-orders"|] == '-';
  }

  class MainSidebar {
    /** Whether the mobile menu sheet is open. */
    var open: bool

    constructor ()
      ensures !open
    {
      open := false;
    }

    /** The sheet's own open/close toggle. */
    method HandleOpenChange(value: bool)
      modifies this
      ensures open == value
    {
      open := value;
    }

    /** Navigating closes the sheet on mobile and leaves it alone otherwise. */
    method HandleNavigation(path: string, isMobile: bool)
      modifies this
      ensures open == (if isMobile then false else old(open))
    {
      if isMobile {
        open := false;
      }
    }
  }
}
