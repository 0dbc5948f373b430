/** The error values the services return, one module per error package of the
    repository. Every one of them is built by `apperror.New`. */
module AuthErrors {
  import opened AppErrors

  const ErrUnauthorized: Error := New(Unauthorized, "Unauthorized access", 401)

  /** The auth errors package that defines this value is not part of this model;
      its code, message and status are taken to be those of the other id errors. */
  const ErrInvalidUserID: Error := New(InvalidInput, "Invalid user ID", 400)
}

module ProductErrors {
  import opened AppErrors

  const ErrInvalidProductID: Error := New(InvalidInput, "Invalid product ID", 400)
  const ErrInvalidCategoryID: Error := New(InvalidInput, "Invalid category ID", 400)
  const ErrProductNotFound: Error := New(NotFound, "Product not found", 404)
  const ErrCategoryNotFound: Error := New(NotFound, "Category not found", 404)
  const ErrProductFailed: Error := New(InternalError, "Failed to process product operation", 500)
  const ErrImageUploadFailed: Error := New(InternalError, "Failed to upload image", 500)
}

module CartErrors {
  import opened AppErrors

  const ErrInvalidCartInput: Error := New(InvalidInput, "Invalid cart input", 400)
  const ErrCartNotFound: Error := New(NotFound, "Cart not found", 404)
  const ErrCartItemNotFound: Error := New(NotFound, "Cart item not found", 404)
  const ErrInvalidQty: Error := New(InvalidInput, "Invalid quantity", 400)
  const ErrQtyMustBeGreaterThanZero: Error := New(InvalidInput, "Quantity must be greater than zero", 400)
}

module OrderErrors {
  import opened AppErrors

  const ErrInvalidOrderID: Error := New(InvalidInput, "invalid order id format", 400)
  const ErrInvalidStatusTransition: Error := New(InvalidState, "invalid status transition", 400)
  const ErrOrderNotFound: Error := New(NotFound, "order not found", 404)
  const ErrCartEmpty: Error := New(InvalidState, "Your shopping cart is empty", 400)
  const ErrCannotCancel: Error := New(InvalidState, "Order cannot be cancelled", 400)
  const ErrOrderFailed: Error := New(InternalError, "Failed to process order, please try again", 500)
  const ErrReceiptRequired: Error := New(InvalidInput, "receipt number is required for shipping", 400)
}

module ReviewErrors {
  import opened AppErrors

  const ErrInvalidReviewID: Error := New(InvalidInput, "Invalid review ID", 400)
  const ErrReviewNotFound: Error := New(NotFound, "Review not found", 404)
  const ErrProductNotFound: Error := New(NotFound, "Product not found", 404)
  const ErrReviewAlreadyExists: Error := New(Conflict, "You have already reviewed this product", 409)
  const ErrNotPurchased: Error := New(InvalidState, "You must purchase this product before reviewing", 403)
  const ErrOrderNotCompleted: Error := New(InvalidState, "Your order must be completed before you can review", 403)
  const ErrUnauthorizedReview: Error := New(Unauthorized, "You are not authorized to modify this review", 403)
  const ErrReviewFailed: Error := New(InternalError, "Failed to process review operation", 500)
}

module CategoryErrors {
  import opened AppErrors

  const ErrInvalidUUID: Error := New(InvalidInput, "Invalid category ID", 400)
  const ErrCategoryNotFound: Error := New(NotFound, "category not found", 404)
  const ErrCategoryFailed: Error := New(InternalError, "Failed to process category operation", 500)
  const ErrImageUploadFailed: Error := New(InternalError, "Failed to upload category image", 500)
  const ErrImageDeleteFailed: Error := New(InternalError, "Failed to delete category image", 500)
  const ErrInvalidImageURL: Error := New(InvalidInput, "Invalid category image URL", 400)
}

module BrandErrors {
  import opened AppErrors

  const ErrInvalidUUID: Error := New(InvalidInput, "Invalid brand ID", 400)
  const ErrBrandNotFound: Error := New(NotFound, "Brand not found", 404)
  const ErrBrandFailed: Error := New(InternalError, "Failed to process brand operation", 500)
  const ErrImageUploadFailed: Error := New(InternalError, "Failed to upload brand image", 500)
  const ErrImageDeleteFailed: Error := New(InternalError, "Failed to delete brand image", 500)
  const ErrInvalidImageURL: Error := New(InvalidInput, "Invalid brand image URL", 400)
}
